/**
  Runs that show what the controllers do not give: a removed template leaves more ready than total components, a pass
  that has not finished leaves an outdated count, and a stale write of Ready makes a component claim a success that
  its run has not had. All are executions of module Controllers from its initial state, without failures.
 */
module Counterexamples {
  import opened Wrappers
  import opened Conditions
  import opened Resources
  import opened Controllers
  import A = ApplicationReconcile
  import W = WorkflowReconcile
  import R = WorkflowRuns
  import P = WorkflowProgress

  // ---------------------------------------------------------------------------------------------------------------
  // Executions, step by step
  // ---------------------------------------------------------------------------------------------------------------

  datatype Trace = Trace(states: seq<System>, events: seq<Event>)

  /** An execution from the initial state. */
  ghost predicate Valid(tr: Trace) {
    Execution(tr.states, tr.events) && Initial(tr.states[0])
  }

  function End(tr: Trace): System
    requires tr.states != []
  {
    tr.states[|tr.states| - 1]
  }

  /** `after` continues `tr`. */
  ghost predicate Continues(tr: Trace, after: Trace) {
    Valid(tr) && Valid(after) && tr.states <= after.states
  }

  lemma Do(tr: Trace, e: Event) returns (after: Trace)
    requires Valid(tr) && Enabled(End(tr), e)
    ensures Continues(tr, after) && End(after) == Apply(End(tr), e)
    ensures after.events == tr.events + [e]
  {
    after := Trace(tr.states + [Apply(End(tr), e)], tr.events + [e]);
  }

  /** The next call of the pass is answered. */
  lemma Reply(tr: Trace, r: A.Response, eff: Effect) returns (after: Trace)
    requires Valid(tr) && Answerable(End(tr), r, eff)
    ensures Continues(tr, after) && End(after) == Answered(End(tr), r, eff)
  {
    after := Do(tr, Answer(r, eff));
  }

  /** No pass is at work, and the Application has the one template. */
  predicate Idle(s: System, t: Template) {
    s.world.app != [] && s.handler.pc.Done? && Latest(s.world).templates == [t]
  }

  lemma Start(t: Template) returns (tr: Trace)
    ensures Valid(tr) && Idle(End(tr), t) && End(tr).world.components == map[]
    ensures Latest(End(tr).world).status.components == [] && End(tr).world.runs == map[]
  {
    var empty := ApplicationStatus([], [], 0, 0);
    var w := World([AppObject([t], empty)], map[], map[], map[], 0);
    tr := Trace([System(w, A.Handler([], [], empty, 0, A.Done(false)))], []);
  }

  /** The pass is at work on the one template. */
  predicate At(s: System, t: Template, pc: A.Pc) {
    && s.world.app != [] && Latest(s.world).templates == [t]
    && s.handler.templates == [t] && s.handler.current == [t] && s.handler.i == 0 && s.handler.pc == pc
  }

  /** The pass is about to store the final status. */
  predicate AtFinish(s: System, t: Template) {
    && s.world.app != [] && Latest(s.world).templates == [t]
    && A.WellFormed(s.handler) && s.handler.templates == [t] && s.handler.pc.Finishing?
  }

  lemma StartPassNow(tr: Trace, t: Template) returns (after: Trace)
    requires Valid(tr) && Idle(End(tr), t)
    ensures Continues(tr, after) && At(End(after), t, A.Looking)
    ensures End(after).world == End(tr).world.(pass := End(tr).world.pass + 1)
    ensures End(after).handler.status == Latest(End(tr).world).status
  {
    after := Do(tr, StartPass(|End(tr).world.app| - 1));
  }

  /** The component as created, and after its workflow was triggered. */
  function Created(t: Template): Component { Component(t.spec, None, [], 0) }
  function Triggered(t: Template): Component { AfterStatus(Created(t), A.With(Created(t), A.TRIGGERED)) }

  lemma FindTriggered(c: Component)
    ensures Find(A.With(c, A.TRIGGERED).conditions, Workflow) == Some(A.TRIGGERED)
  {
    FindAfterPut(c.conditions, A.TRIGGERED, Workflow);
  }

  lemma FindsNone(tr: Trace, t: Template) returns (after: Trace)
    requires Valid(tr) && At(End(tr), t, A.Looking) && t.name !in End(tr).world.components
    ensures Continues(tr, after) && At(End(after), t, A.MarkingNew)
    ensures End(after).world == End(tr).world
    ensures End(after).handler.status.components == End(tr).handler.status.components
  {
    after := Reply(tr, A.NotFound, NoEffect);
  }

  lemma MarksNew(tr: Trace, t: Template) returns (after: Trace)
    requires Valid(tr) && At(End(tr), t, A.MarkingNew)
    ensures Continues(tr, after) && At(End(after), t, A.Creating)
    ensures End(after).world.components == End(tr).world.components && End(after).world.runs == End(tr).world.runs
    ensures End(after).handler.status.components == End(tr).handler.status.components
  {
    after := Reply(tr, A.Refreshed([t]), Wrote);
  }

  /** A pass finds no component and creates it. */
  lemma Creates(tr: Trace, t: Template) returns (after: Trace)
    requires Valid(tr) && At(End(tr), t, A.Looking) && t.name !in End(tr).world.components
    ensures Continues(tr, after) && At(End(after), t, A.ApplyingWorkflow(Created(t)))
    ensures End(after).world.components == End(tr).world.components[t.name := Created(t)]
    ensures End(after).world.runs == End(tr).world.runs
    ensures End(after).handler.status.components == End(tr).handler.status.components
  {
    after := FindsNone(tr, t);
    after := MarksNew(after, t);
    after := Reply(after, A.Stored(Created(t)), Wrote);
  }

  lemma StoresTriggered(tr: Trace, t: Template) returns (after: Trace)
    requires Valid(tr) && At(End(tr), t, A.Triggering(A.New, Created(t)))
    requires t.name in End(tr).world.components && End(tr).world.components[t.name] == Created(t)
    ensures Continues(tr, after) && At(End(after), t, A.FetchingWorkflow(A.New, Triggered(t)))
    ensures End(after).world.components == End(tr).world.components[t.name := Triggered(t)]
    ensures End(after).world.runs == End(tr).world.runs
    ensures End(after).handler.status.components == End(tr).handler.status.components
  {
    after := Reply(tr, A.Stored(Triggered(t)), Wrote);
  }

  /** Then it applies the Workflow and stores that it was triggered. */
  lemma Triggers(tr: Trace, t: Template) returns (after: Trace)
    requires Valid(tr) && At(End(tr), t, A.ApplyingWorkflow(Created(t)))
    requires t.name in End(tr).world.components && End(tr).world.components[t.name] == Created(t)
    ensures Continues(tr, after) && At(End(after), t, A.FetchingWorkflow(A.New, Triggered(t)))
    ensures End(after).world.components == End(tr).world.components[t.name := Triggered(t)]
    ensures End(after).world.runs == End(tr).world.runs
    ensures End(after).handler.status.components == End(tr).handler.status.components
  {
    after := Reply(tr, A.Ok, NoEffect);
    after := StoresTriggered(after, t);
  }

  /** From the initial state to the question whether there is a Workflow. */
  lemma BeginsCreation(t: Template) returns (tr: Trace)
    ensures Valid(tr) && At(End(tr), t, A.FetchingWorkflow(A.New, Triggered(t)))
    ensures End(tr).handler.status.components == [] && End(tr).world.runs == map[]
    ensures End(tr).world.components == map[t.name := Triggered(t)]
  {
    tr := Start(t);
    tr := StartPassNow(tr, t);
    tr := Creates(tr, t);
    tr := Triggers(tr, t);
  }

  /** The final write of a pass over the one template. */
  lemma Finishes(tr: Trace, t: Template) returns (after: Trace)
    requires Valid(tr) && AtFinish(End(tr), t)
    ensures Continues(tr, after) && Idle(End(after), t)
    ensures Latest(End(after).world).status == End(tr).handler.status
    ensures End(after).world.components == End(tr).world.components && End(after).world.runs == End(tr).world.runs
  {
    after := Reply(tr, A.Refreshed([t]), Wrote);
  }

  // ---------------------------------------------------------------------------------------------------------------
  // A removed template
  // ---------------------------------------------------------------------------------------------------------------

  /** The component as stored by the last call of its creation. */
  function Placed(t: Template, run: Option<string>): Component {
    AfterUpdate(Triggered(t), Triggered(t).(run := run))
  }

  /** The Update that ends the creation. */
  lemma Updates(tr: Trace, t: Template, run: Option<string>) returns (after: Trace)
    requires Valid(tr) && At(End(tr), t, A.Updating(A.New, Triggered(t), run))
    requires t.name in End(tr).world.components && End(tr).world.components[t.name] == Triggered(t)
    ensures Continues(tr, after) && AtFinish(End(after), t)
    ensures End(after).world.components == End(tr).world.components[t.name := Placed(t, run)]
    ensures End(after).world.runs == End(tr).world.runs
    ensures End(after).handler.status.components == End(tr).handler.status.components
    ensures End(after).handler.status.readyComponents == A.CountRunning(End(tr).handler.status.components)
  {
    after := Reply(tr, A.Stored(Placed(t, run)), Wrote);
  }

  lemma NoWorkflowFound(tr: Trace, t: Template) returns (after: Trace)
    requires Valid(tr) && At(End(tr), t, A.FetchingWorkflow(A.New, Triggered(t)))
    ensures Continues(tr, after) && At(End(after), t, A.Updating(A.New, Triggered(t), None))
    ensures End(after).world == End(tr).world
    ensures End(after).handler.status.components == End(tr).handler.status.components
  {
    after := Reply(tr, A.NotFound, NoEffect);
  }

  /** The component has no Workflow object: it is created without a run. */
  lemma CreatesWithoutRun(t: Template) returns (tr: Trace)
    ensures Valid(tr) && Idle(End(tr), t) && Latest(End(tr).world).status.components == []
    ensures Latest(End(tr).world).status.readyComponents == 0
    ensures End(tr).world.components == map[t.name := Placed(t, None)]
  {
    tr := BeginsCreation(t);
    tr := NoWorkflowFound(tr, t);
    tr := Updates(tr, t, None);
    tr := Finishes(tr, t);
  }

  /** The component, and what the status says of it, once it is ready. */
  function MadeReady(c: Component): Component { AfterStatus(c, A.With(c, ReadyCondition(Running, ""))) }
  function ReadyEntry(t: Template): Entry { Entry(t.name, t.spec.componentType, Running) }

  lemma ReadyFacts(t: Template)
    ensures var c := MadeReady(Placed(t, None));
            && c.spec == t.spec && c.run.None? && A.AwaitsRun(c) && A.EntryFor(t.name, c) == ReadyEntry(t)
    ensures !Succeeded(Placed(t, None).conditions)
  {
    var c := Placed(t, None);
    FindTriggered(Created(t));
    FindAfterPut(c.conditions, ReadyCondition(Running, ""), Workflow);
    FindAfterPut(c.conditions, ReadyCondition(Running, ""), Ready);
  }

  /** The component becomes ready. */
  lemma SetsReady(tr: Trace, t: Template) returns (after: Trace)
    requires Valid(tr) && Idle(End(tr), t)
    requires t.name in End(tr).world.components && End(tr).world.components[t.name] == Placed(t, None)
    ensures Continues(tr, after) && Idle(End(after), t)
    ensures Latest(End(after).world).status == Latest(End(tr).world).status
    ensures End(after).world.components == End(tr).world.components[t.name := MadeReady(Placed(t, None))]
  {
    ReadyFacts(t);
    after := Do(tr, SetReady(t.name, Placed(t, None).conditions, Running, ""));
  }

  /** A pass records the readiness. */
  lemma RecordsReady(tr: Trace, t: Template) returns (after: Trace)
    requires Valid(tr) && At(End(tr), t, A.Looking) && End(tr).handler.status.components == []
    requires t.name in End(tr).world.components && End(tr).world.components[t.name] == MadeReady(Placed(t, None))
    ensures Continues(tr, after) && AtFinish(End(after), t)
    ensures End(after).handler.status.components == [ReadyEntry(t)]
  {
    var c := MadeReady(Placed(t, None));
    ReadyFacts(t);
    after := Reply(tr, A.Found(c), NoEffect);
    assert At(End(after), t, A.ReadingRun(c)) && End(after).handler.status.components == [];
    after := Reply(after, A.NotFound, NoEffect);
  }

  /** A pass over an Application without templates begins with its final write. */
  lemma CountsWithoutTemplates(tr: Trace, t: Template) returns (after: Trace)
    requires Valid(tr) && End(tr).world.app != [] && End(tr).handler.pc.Done?
    requires Latest(End(tr).world).templates == [] && Latest(End(tr).world).status.components == [ReadyEntry(t)]
    ensures Continues(tr, after) && End(after).handler.pc.Finishing? && End(after).handler.templates == []
    ensures End(after).handler.status.readyComponents == 1 && End(after).handler.status.totalComponents == 0
    ensures End(after).world.app == End(tr).world.app
  {
    assert [ReadyEntry(t)][..0] == [];
    assert A.CountRunning([ReadyEntry(t)]) == 1;
    after := Do(tr, StartPass(|End(tr).world.app| - 1));
  }

  /** The template is removed and another pass goes by. */
  lemma RemovesTemplate(tr: Trace, t: Template) returns (after: Trace)
    requires Valid(tr) && Idle(End(tr), t) && Latest(End(tr).world).status.components == [ReadyEntry(t)]
    ensures Continues(tr, after) && End(after).world.app != [] && End(after).handler.pc == A.Done(true)
    ensures Latest(End(after).world).status.readyComponents == 1
    ensures Latest(End(after).world).status.totalComponents == 0
  {
    after := Do(tr, Edit([]));
    after := CountsWithoutTemplates(after, t);
    after := Reply(after, A.Refreshed([]), Wrote);
  }

  /**
    A template is removed, the entry of its component stays, and the final write of the next pass stores more ready
    than total components.
   */
  lemma RemovalBreaksTheCount(t: Template) returns (tr: Trace)
    ensures Valid(tr) && End(tr).world.app != [] && End(tr).handler.pc == A.Done(true)
    ensures Latest(End(tr).world).status.readyComponents > Latest(End(tr).world).status.totalComponents
  {
    tr := CreatesWithoutRun(t);
    tr := SetsReady(tr, t);
    tr := StartPassNow(tr, t);
    tr := RecordsReady(tr, t);
    tr := Finishes(tr, t);
    tr := RemovesTemplate(tr, t);
  }

  // ---------------------------------------------------------------------------------------------------------------
  // A count that is not kept up to date
  // ---------------------------------------------------------------------------------------------------------------

  /** The pass is at work on the Application of two templates. */
  predicate AtTwo(s: System, t: Template, u: Template, i: nat, pc: A.Pc) {
    && s.world.app != [] && Latest(s.world).templates == [t, u]
    && s.handler.templates == [t, u] && s.handler.i == i && s.handler.pc == pc
  }

  /** A second template is added, and a pass begins. */
  lemma AddsTemplate(tr: Trace, t: Template, u: Template) returns (after: Trace)
    requires Valid(tr) && Idle(End(tr), t)
    ensures Continues(tr, after) && AtTwo(End(after), t, u, 0, A.Looking)
    ensures End(after).world.components == End(tr).world.components
    ensures End(after).handler.status == Latest(End(tr).world).status
  {
    after := Do(tr, Edit([t, u]));
    after := Do(after, StartPass(|End(after).world.app| - 1));
  }

  /** The pass records the first component as Running and goes on to the second. */
  lemma RecordsFirst(tr: Trace, t: Template, u: Template) returns (after: Trace)
    requires Valid(tr) && AtTwo(End(tr), t, u, 0, A.Looking)
    requires t.name in End(tr).world.components && End(tr).world.components[t.name] == MadeReady(Placed(t, None))
    requires End(tr).handler.status.components == [] && End(tr).handler.status.readyComponents == 0
    ensures Continues(tr, after) && AtTwo(End(after), t, u, 1, A.Looking)
    ensures End(after).world.components == End(tr).world.components
    ensures End(after).handler.status.components == [ReadyEntry(t)] && End(after).handler.status.readyComponents == 0
  {
    var c := MadeReady(Placed(t, None));
    ReadyFacts(t);
    after := Reply(tr, A.Found(c), NoEffect);
    assert AtTwo(End(after), t, u, 0, A.ReadingRun(c)) && End(after).handler.status == End(tr).handler.status;
    after := Reply(after, A.NotFound, NoEffect);
  }

  /** The second component does not exist, and the status is stored before it is created. */
  lemma MarksSecond(tr: Trace, t: Template, u: Template) returns (after: Trace)
    requires Valid(tr) && AtTwo(End(tr), t, u, 1, A.Looking) && u.name !in End(tr).world.components
    ensures Continues(tr, after) && End(after).world.app != []
    ensures Latest(End(after).world).status.components == End(tr).handler.status.components
    ensures Latest(End(after).world).status.readyComponents == End(tr).handler.status.readyComponents
  {
    after := Reply(tr, A.NotFound, NoEffect);
    assert AtTwo(End(after), t, u, 1, A.MarkingNew);
    after := Reply(after, A.Refreshed([t, u]), Wrote);
  }

  /**
    A component has become ready, and a write in the middle of the next pass stores its Running entry with the old
    count. If the pass then fails at its second template, no final write corrects it.
   */
  lemma MidPassMiscount(t: Template, u: Template) returns (tr: Trace)
    requires t.name != u.name
    ensures Valid(tr) && End(tr).world.app != []
    ensures var stored := Latest(End(tr).world).status;
            stored.readyComponents == 0 && A.CountRunning(stored.components) == 1
  {
    tr := CreatesWithoutRun(t);
    tr := SetsReady(tr, t);
    tr := AddsTemplate(tr, t, u);
    tr := RecordsFirst(tr, t, u);
    tr := MarksSecond(tr, t, u);
    assert [ReadyEntry(t)][..0] == [];
    assert A.CountRunning([ReadyEntry(t)]) == 1;
  }

  // ---------------------------------------------------------------------------------------------------------------
  // A stale write of Ready
  // ---------------------------------------------------------------------------------------------------------------

  lemma StartsRun(tr: Trace, t: Template, path: A.Path, c: Component, run: string, a: W.Action) returns (after: Trace)
    requires Valid(tr) && At(End(tr), t, A.StartingRun(path, c)) && run !in End(tr).world.runs
    ensures Continues(tr, after) && At(End(after), t, A.Updating(path, c, Some(run)))
    ensures End(after).world.components == End(tr).world.components
    ensures End(after).world.runs.Keys == End(tr).world.runs.Keys + {run}
    ensures forall r :: r in End(tr).world.runs ==> End(after).world.runs[r] == End(tr).world.runs[r]
    ensures End(after).world.runs[run].state == NewRunState([a])
  {
    after := Reply(tr, A.RunCreated(run), NewRun(run, [a]));
  }

  /** The Workflow is there, and a run is created. */
  lemma Launches(tr: Trace, t: Template, path: A.Path, c: Component, run: string, a: W.Action) returns (after: Trace)
    requires Valid(tr) && At(End(tr), t, A.FetchingWorkflow(path, c)) && run !in End(tr).world.runs
    ensures Continues(tr, after) && At(End(after), t, A.Updating(path, c, Some(run)))
    ensures End(after).world.components == End(tr).world.components
    ensures End(after).world.runs.Keys == End(tr).world.runs.Keys + {run}
    ensures forall r :: r in End(tr).world.runs ==> End(after).world.runs[r] == End(tr).world.runs[r]
    ensures End(after).world.runs[run].state == NewRunState([a])
  {
    after := Reply(tr, A.Ok, NoEffect);
    after := StartsRun(after, t, path, c, run, a);
  }

  /** The component is created together with a run. */
  lemma CreatesWithRun(t: Template, run: string, a: W.Action) returns (tr: Trace)
    ensures Valid(tr) && Idle(End(tr), t)
    ensures t.name in End(tr).world.components && End(tr).world.components[t.name] == Placed(t, Some(run))
    ensures End(tr).world.runs.Keys == {run} && End(tr).world.runs[run].state == NewRunState([a])
  {
    tr := BeginsCreation(t);
    tr := Launches(tr, t, A.New, Triggered(t), run, a);
    tr := Updates(tr, t, Some(run));
    tr := Finishes(tr, t);
  }

  /** An execution of one run is one of the whole system. */
  lemma {:induction false} Lift(tr: Trace, run: string, states: seq<R.RunState>, events: seq<R.Event>, n: nat)
    returns (after: Trace)
    requires Valid(tr) && run in End(tr).world.runs && R.Execution(states, events) && n <= |events|
    requires states[0] == End(tr).world.runs[run].state && End(tr).world.app != []
    ensures Continues(tr, after) && End(after).handler == End(tr).handler
    ensures run in End(after).world.runs
    ensures End(after).world
         == End(tr).world.(runs := End(tr).world.runs[run := End(tr).world.runs[run].(state := states[n])])
  {
    if n == 0 {
      after := tr;
      var w := End(tr).world;
      assert w.runs[run := w.runs[run].(state := states[0])] == w.runs;
    } else {
      after := Lift(tr, run, states, events, n - 1);
      assert End(after).world.runs[run].state == states[n - 1];
      after := Do(after, RunEvent(run, events[n - 1]));
    }
  }

  /** The run with its job completed. */
  function JobDone(a: W.Action): R.RunState { NewRunState([a]).(jobs := [W.Job(a.name, 0, [W.Complete])]) }

  /** The job of the run's only action completes. */
  lemma CompletesJob(tr: Trace, run: string, a: W.Action) returns (after: Trace)
    requires Valid(tr) && run in End(tr).world.runs && End(tr).world.runs[run].state == NewRunState([a])
    requires End(tr).world.app != []
    ensures Continues(tr, after) && End(after).handler == End(tr).handler && run in End(after).world.runs
    ensures End(after).world
         == End(tr).world.(runs := End(tr).world.runs[run := End(after).world.runs[run]])
    ensures End(after).world.runs[run].state == JobDone(a)
  {
    after := Do(tr, RunEvent(run, R.JobsChange([W.Job(a.name, 0, [W.Complete])])));
  }

  /** The verdict on the completed job. */
  lemma CompletedVerdict(a: W.Action)
    ensures W.Verdict([W.Job(a.name, 0, [W.Complete])], a.name, []) == [W.Succeeded()]
    ensures !W.QuietJobs([W.Job(a.name, 0, [W.Complete])], a.name)
  {
    var jobs := [W.Job(a.name, 0, [W.Complete])];
    assert W.DecidingAt(jobs, a.name, 0, 0);
    assert W.LastDecidingAt(jobs, a.name, 0, 0);
    W.VerdictDecided(jobs, a.name, 0, 0, []);
    W.ExactVerdict(jobs, a.name, []);
  }

  /** The actions of this run create no more jobs. */
  function NoJobs(): W.Action -> P.Launch { _ => P.Starts([]) }

  lemma SuccessStored(a: W.Action, t: R.RunState)
    requires P.DoesItsWork(JobDone(a), t, NoJobs())
    ensures [W.Succeeded()] in t.history
  {
    CompletedVerdict(a);
    assert R.Stored(t) == [W.Succeeded()];
    assert t.history[|t.history| - 1] == [W.Succeeded()];
  }

  /** What an undisturbed Reconcile makes of the completed job. */
  lemma JobReconciled(a: W.Action) returns (t: R.RunState)
    requires R.Inv(JobDone(a))
    ensures P.Leads(R.Apply(JobDone(a), R.Begin(0)), t, 0, NoJobs()) && [W.Succeeded()] in t.history
  {
    t := P.UndisturbedReconcile(JobDone(a), 0, NoJobs());
    SuccessStored(a, t);
  }

  lemma LiftsReconcile(tr: Trace, run: string, t: R.RunState) returns (after: Trace)
    requires Valid(tr) && End(tr).world.app != [] && run in End(tr).world.runs
    requires P.Leads(End(tr).world.runs[run].state, t, 0, NoJobs())
    ensures Continues(tr, after) && End(after).handler == End(tr).handler && run in End(after).world.runs
    ensures End(after).world == End(tr).world.(runs := End(tr).world.runs[run := End(after).world.runs[run]])
    ensures End(after).world.runs[run].state == t
  {
    var states, events :| P.AllNominal(states, events, 0, NoJobs())
                          && states[0] == End(tr).world.runs[run].state && states[|events|] == t;
    after := Lift(tr, run, states, events, |events|);
  }

  /** A Reconcile of the run whose job has completed. */
  lemma ReconcilesRun(tr: Trace, run: string, a: W.Action) returns (after: Trace)
    requires Valid(tr) && End(tr).world.app != [] && run in End(tr).world.runs
    requires R.Inv(End(tr).world.runs[run].state)
    requires End(tr).world.runs[run].state == JobDone(a)
    ensures Continues(tr, after) && End(after).handler == End(tr).handler && run in End(after).world.runs
    ensures End(after).world == End(tr).world.(runs := End(tr).world.runs[run := End(after).world.runs[run]])
    ensures [W.Succeeded()] in End(after).world.runs[run].state.history
  {
    var t := JobReconciled(a);
    after := Do(tr, RunEvent(run, R.Begin(0)));
    after := LiftsReconcile(after, run, t);
  }

  /** A Reconcile of the run stores that it finished successfully. */
  lemma FinishesRun(tr: Trace, run: string, a: W.Action) returns (after: Trace)
    requires Valid(tr) && run in End(tr).world.runs && End(tr).world.runs[run].state == NewRunState([a])
    requires End(tr).world.app != []
    ensures Continues(tr, after) && End(after).handler == End(tr).handler && run in End(after).world.runs
    ensures End(after).world == End(tr).world.(runs := End(tr).world.runs[run := End(after).world.runs[run]])
    ensures [W.Succeeded()] in End(after).world.runs[run].state.history
  {
    after := CompletesJob(tr, run, a);
    var s := End(after).world.runs[run].state;
    R.InitialInv(NewRunState([a]));
    R.JobsChangeKeeps(NewRunState([a]), s.jobs);
    after := ReconcilesRun(after, run, a);
  }

  /** The component after a status write of the pass. */
  function Written(c: Component, k: ComponentCondition): Component { AfterStatus(c, A.With(c, k)) }

  function SuccessOf(run: string): ComponentCondition {
    WorkflowCondition(True, WorkflowSucceed, "Workflow " + run + " finished")
  }

  const PENDING := ReadyCondition(Pending, "Component is pending a deployment")

  /** The component once the success of its run has been copied. */
  function Mirrored(c: Component, run: string): Component { Written(Written(c, SuccessOf(run)), PENDING) }

  lemma SuccessMirrored(run: string)
    ensures A.MirrorWrites(run, [W.Succeeded()]) == [SuccessOf(run), PENDING]
  {
    assert [W.Succeeded()][1..] == [];
  }

  lemma SuccessAdvances(h: A.Handler, run: string)
    requires A.WellFormed(h) && h.pc.ReadingRun? && h.pc.c.run == Some(run)
    ensures A.Advance(h, A.RunFound([W.Succeeded()])) == h.(pc := A.Mirroring(h.pc.c, [SuccessOf(run), PENDING]))
  {
    SuccessMirrored(run);
  }

  lemma MirroredSays(c: Component, run: string)
    ensures Succeeded(Mirrored(c, run).conditions)
  {
    FindAfterPut(c.conditions, SuccessOf(run), Workflow);
    FindAfterPut(Written(c, SuccessOf(run)).conditions, PENDING, Workflow);
  }

  lemma LooksUp(tr: Trace, t: Template, run: string) returns (after: Trace)
    requires Valid(tr) && At(End(tr), t, A.Looking)
    requires t.name in End(tr).world.components && End(tr).world.components[t.name] == Placed(t, Some(run))
    ensures Continues(tr, after) && End(after).world == End(tr).world
    ensures At(End(after), t, A.ReadingRun(Placed(t, Some(run))))
  {
    FindTriggered(Created(t));
    assert A.AwaitsRun(Placed(t, Some(run)));
    after := Reply(tr, A.Found(Placed(t, Some(run))), NoEffect);
  }

  lemma FindsSuccess(tr: Trace, t: Template, run: string) returns (after: Trace)
    requires Valid(tr) && At(End(tr), t, A.ReadingRun(Placed(t, Some(run)))) && run in End(tr).world.runs
    requires [W.Succeeded()] in End(tr).world.runs[run].state.history
    ensures Continues(tr, after) && End(after).world == End(tr).world
    ensures At(End(after), t, A.Mirroring(Placed(t, Some(run)), [SuccessOf(run), PENDING]))
  {
    SuccessAdvances(End(tr).handler, run);
    after := Reply(tr, A.RunFound([W.Succeeded()]), NoEffect);
  }

  /** A pass looks the component up, and then its run. */
  lemma ReadsRun(tr: Trace, t: Template, run: string) returns (after: Trace)
    requires Valid(tr) && At(End(tr), t, A.Looking) && run in End(tr).world.runs
    requires t.name in End(tr).world.components && End(tr).world.components[t.name] == Placed(t, Some(run))
    requires [W.Succeeded()] in End(tr).world.runs[run].state.history
    ensures Continues(tr, after) && End(after).world == End(tr).world
    ensures At(End(after), t, A.Mirroring(Placed(t, Some(run)), [SuccessOf(run), PENDING]))
  {
    after := LooksUp(tr, t, run);
    after := FindsSuccess(after, t, run);
  }

  lemma CopiesPending(tr: Trace, t: Template, c: Component) returns (after: Trace)
    requires Valid(tr) && At(End(tr), t, A.Mirroring(c, [PENDING]))
    requires t.name in End(tr).world.components && End(tr).world.components[t.name] == c
    ensures Continues(tr, after) && AtFinish(End(after), t)
    ensures End(after).world.runs == End(tr).world.runs
    ensures End(after).world.components == End(tr).world.components[t.name := Written(c, PENDING)]
  {
    assert [PENDING][1..] == [];
    after := Reply(tr, A.Stored(Written(c, PENDING)), Wrote);
  }

  /** The pass copies the success into the component. */
  lemma CopiesSuccess(tr: Trace, t: Template, run: string) returns (after: Trace)
    requires Valid(tr) && At(End(tr), t, A.Mirroring(Placed(t, Some(run)), [SuccessOf(run), PENDING]))
    requires t.name in End(tr).world.components && End(tr).world.components[t.name] == Placed(t, Some(run))
    ensures Continues(tr, after) && AtFinish(End(after), t)
    ensures End(after).world.runs == End(tr).world.runs && t.name in End(after).world.components
    ensures End(after).world.components[t.name] == Mirrored(Placed(t, Some(run)), run)
  {
    var c := Placed(t, Some(run));
    assert [SuccessOf(run), PENDING][1..] == [PENDING];
    after := Reply(tr, A.Stored(Written(c, SuccessOf(run))), Wrote);
    after := CopiesPending(after, t, Written(c, SuccessOf(run)));
  }

  /** The component's run has succeeded, and the component says so. */
  lemma Succeeds(t: Template, run: string, a: W.Action) returns (tr: Trace)
    ensures Valid(tr) && Idle(End(tr), t) && End(tr).world.runs.Keys == {run}
    ensures t.name in End(tr).world.components
    ensures End(tr).world.components[t.name] == Mirrored(Placed(t, Some(run)), run)
  {
    tr := CreatesWithRun(t, run, a);
    tr := FinishesRun(tr, run, a);
    assert Idle(End(tr), t);
    tr := StartPassNow(tr, t);
    tr := ReadsRun(tr, t, run);
    tr := CopiesSuccess(tr, t, run);
    tr := Finishes(tr, t);
  }

  lemma Compares(tr: Trace, u: Template, c: Component) returns (after: Trace)
    requires Valid(tr) && At(End(tr), u, A.Looking) && c.spec.values.source != u.spec.values.source
    requires u.name in End(tr).world.components && End(tr).world.components[u.name] == c
    ensures Continues(tr, after) && At(End(after), u, A.MarkingChanged(c)) && End(after).world == End(tr).world
  {
    after := Reply(tr, A.Found(c), NoEffect);
  }

  lemma MarksChanged(tr: Trace, u: Template, c: Component) returns (after: Trace)
    requires Valid(tr) && At(End(tr), u, A.MarkingChanged(c))
    ensures Continues(tr, after) && At(End(after), u, A.Triggering(A.Existing, c))
    ensures End(after).world.components == End(tr).world.components && End(after).world.runs == End(tr).world.runs
  {
    after := Reply(tr, A.Refreshed([u]), Wrote);
  }

  lemma Edits(tr: Trace, t: Template, u: Template) returns (after: Trace)
    requires Valid(tr) && Idle(End(tr), t)
    ensures Continues(tr, after) && Idle(End(after), u)
    ensures End(after).world.components == End(tr).world.components && End(after).world.runs == End(tr).world.runs
  {
    after := Do(tr, Edit([u]));
  }

  /** The template gets another Source, and the next pass notices. */
  lemma NoticesChange(tr: Trace, t: Template, u: Template, c: Component) returns (after: Trace)
    requires Valid(tr) && Idle(End(tr), t) && c.spec.values.source != u.spec.values.source
    requires u.name in End(tr).world.components && End(tr).world.components[u.name] == c
    ensures Continues(tr, after) && At(End(after), u, A.Triggering(A.Existing, c))
    ensures End(after).world.components == End(tr).world.components && End(after).world.runs == End(tr).world.runs
  {
    after := Edits(tr, t, u);
    after := StartPassNow(after, u);
    after := Compares(after, u, c);
    after := MarksChanged(after, u, c);
  }

  lemma TriggersAgain(tr: Trace, u: Template, c: Component) returns (after: Trace)
    requires Valid(tr) && At(End(tr), u, A.Triggering(A.Existing, c))
    requires u.name in End(tr).world.components && End(tr).world.components[u.name] == c
    ensures Continues(tr, after) && At(End(after), u, A.FetchingWorkflow(A.Existing, Written(c, A.TRIGGERED)))
    ensures End(after).world.components == End(tr).world.components[u.name := Written(c, A.TRIGGERED)]
    ensures End(after).world.runs == End(tr).world.runs
  {
    after := Reply(tr, A.Stored(Written(c, A.TRIGGERED)), Wrote);
  }

  /** The second run is launched, and its label and the new Source are stored. */
  lemma Relaunches(tr: Trace, u: Template, c: Component, run: string, a: W.Action) returns (after: Trace)
    requires Valid(tr) && At(End(tr), u, A.FetchingWorkflow(A.Existing, c)) && run !in End(tr).world.runs
    requires u.name in End(tr).world.components && End(tr).world.components[u.name] == c
    ensures Continues(tr, after) && u.name in End(after).world.components
    ensures End(after).world.components[u.name].run == Some(run)
    ensures run in End(after).world.runs && End(after).world.runs[run].state == NewRunState([a])
  {
    after := Launches(tr, u, A.Existing, c, run, a);
    after := Reply(after, A.Stored(AfterUpdate(c, A.Revised(A.Existing, c, Some(run), u))), Wrote);
  }

  /**
    A stale write of Ready: after the component's workflow succeeded, its Source changed and a second run was launched,
    a writer that stores its old copy makes the component say that its workflow succeeded, although the run its label
    names has done nothing yet. `i` is the step at which the copy was the stored one.
   */
  lemma StaleReadyBreaksSuccess(t: Template, u: Template, first: string, second: string, a: W.Action)
    returns (tr: Trace, i: nat)
    requires u.name == t.name && u.spec.values.source != t.spec.values.source && first != second
    ensures Valid(tr) && i < |tr.states| && t.name in tr.states[i].world.components
    ensures t.name in End(tr).world.components
    ensures var copy := tr.states[i].world.components[t.name].conditions;
            var c := ReadyWritten(End(tr), t.name, copy, Deploying, "").world.components[t.name];
            SaysSucceeded(c) && !RunCompleted(End(tr).world, c)
  {
    tr := Succeeds(t, first, a);
    i := |tr.states| - 1;
    ghost var before := tr;
    var c := Mirrored(Placed(t, Some(first)), first);
    tr := NoticesChange(tr, t, u, c);
    tr := TriggersAgain(tr, u, c);
    tr := Relaunches(tr, u, Written(c, A.TRIGGERED), second, a);
    MirroredSays(Placed(t, Some(first)), first);
    FindAfterPut(c.conditions, ReadyCondition(Deploying, ""), Workflow);
    assert tr.states[i] == End(before);
  }
}
