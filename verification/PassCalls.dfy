/**
  The calls of an Application pass, read off its log: what is asked of the API server for one template, in which order,
  and with which contents. Everything is stated on requests and responses, in the controller's constants.
 */
module PassCalls {
  import opened Wrappers
  import opened Conditions
  import opened Resources
  import opened ApplicationReconcile
  import W = WorkflowReconcile

  /** The log of a pass from some state on. */
  ghost predicate Pass(log: seq<Exchange>, trace: seq<Handler>) {
    |trace| == |log| + 1 && Follows(trace[0], log, trace)
  }

  lemma StepAt(log: seq<Exchange>, trace: seq<Handler>, i: nat)
    requires Pass(log, trace) && i < |log|
    ensures Takes(trace[i], log[i], trace[i + 1])
  {
    assert Takes(trace[i], log[i], trace[i + 1]);
  }

  /** What a pass works on: a template and the Application status it carries. */
  datatype Work = Work(templates: seq<Template>, i: nat, status: ApplicationStatus)

  function TemplateOf(w: Work): Template
    requires w.i < |w.templates|
  {
    w.templates[w.i]
  }

  /** Before call `k` the pass works on `w`, in control state `pc`. */
  ghost predicate In(log: seq<Exchange>, trace: seq<Handler>, k: nat, w: Work, pc: Pc) {
    && Pass(log, trace) && k <= |log| && w.i < |w.templates|
    && trace[k].templates == w.templates && trace[k].i == w.i && trace[k].status == w.status && trace[k].pc == pc
  }

  /** Call `k` looks the component of the template up. */
  ghost predicate LooksUp(log: seq<Exchange>, trace: seq<Handler>, k: nat, w: Work) {
    In(log, trace, k, w, Looking) && k < |log|
  }

  // --- What the writes carry ---

  /** A write of the Application status with the given condition; nothing else of `before` changes. */
  predicate Marks(q: Request, before: ApplicationStatus, status: Status, reason: ApplicationReason) {
    && q.ApplyApplicationStatus?
    && q.status == before.(conditions := q.status.conditions)
    && var k := Find(q.status.conditions, ApplicationState);
       k.Some? && k.value.status == status && k.value.reason == reason
  }

  /** A write of a component's status with the given condition; nothing else of `c` changes. */
  predicate Stores(q: Request, name: string, c: Component, ctype: ComponentConditionType, status: Status,
                   reason: Reason)
  {
    && q.ApplyStatus? && q.name == name
    && q.component == c.(conditions := q.component.conditions)
    && (forall t :: t != ctype ==> Find(q.component.conditions, t) == Find(c.conditions, t))
    && var k := Find(q.component.conditions, ctype);
       k.Some? && k.value.status == status && k.value.reason == reason
  }

  lemma StoresPut(name: string, c: Component, k: ComponentCondition)
    ensures Stores(ApplyStatus(name, With(c, k)), name, c, k.ctype, k.status, k.reason)
  {
    forall t ensures Find(With(c, k).conditions, t) == if t == k.ctype then Some(k) else Find(c.conditions, t) {
      FindAfterPut(c.conditions, k, t);
    }
  }

  lemma MarksPut(before: ApplicationStatus, name: string)
    ensures Marks(ApplyApplicationStatus(WithRendering(before, name)), before, True, RenderingComponent)
    ensures Marks(ApplyApplicationStatus(WithRenderingFailed(before, name)), before, False, RenderingComponentFailed)
  {
    FindAfterPut(before.conditions, WithRendering(ApplicationStatus([], [], 0, 0), name).conditions[0],
                 ApplicationState);
    FindAfterPut(before.conditions, WithRenderingFailed(ApplicationStatus([], [], 0, 0), name).conditions[0],
                 ApplicationState);
  }

  /** Whether the run of a component is looked up: its workflow was triggered, or was running when last seen. */
  predicate Watched(c: Component) {
    var k := Find(c.conditions, Workflow);
    k.Some? && (k.value.reason == WorkflowTriggered || k.value.reason == WorkflowRunning)
  }

  // --- How the work on a template ends ---

  /** After `k` calls the pass is over, with an error. */
  ghost predicate Fails(log: seq<Exchange>, trace: seq<Handler>, k: nat) {
    Pass(log, trace) && |log| == k && trace[k].pc == Done(false)
  }

  lemma OverIsLast(log: seq<Exchange>, trace: seq<Handler>, k: nat)
    requires Pass(log, trace) && k <= |log| && trace[k].pc.Done?
    ensures |log| == k
  {
    if |log| > k { StepAt(log, trace, k); }
  }

  /** Call `k` records that a component could not be rendered, and is the last one of the pass, which fails. */
  ghost predicate RecordsFailure(log: seq<Exchange>, trace: seq<Handler>, k: nat, before: ApplicationStatus) {
    && Pass(log, trace) && k <= |log| <= k + 1 && !trace[k].pc.Done?
    && (|log| == k + 1 ==> Marks(log[k].request, before, False, RenderingComponentFailed) && Fails(log, trace, k + 1))
  }

  lemma FailureEnds(log: seq<Exchange>, trace: seq<Handler>, k: nat, w: Work)
    requires w.i < |w.templates|
    requires In(log, trace, k, w.(status := WithRenderingFailed(w.status, TemplateOf(w).name)), MarkingFailed)
    ensures RecordsFailure(log, trace, k, w.status)
  {
    MarksPut(w.status, TemplateOf(w).name);
    if |log| > k {
      StepAt(log, trace, k);
      OverIsLast(log, trace, k + 1);
    }
  }

  /** The component has its entry: its Ready reason, or Pending without one; other entries stay. */
  ghost predicate Enters(before: seq<Entry>, after: seq<Entry>, name: string, c: Component) {
    var ready := Find(c.conditions, Ready);
    && EntryOf(after, name)
         == Some(Entry(name, c.spec.componentType, if ready.Some? then ready.value.reason else Pending))
    && forall other :: other != name ==> EntryOf(after, other) == EntryOf(before, other)
  }

  lemma RecordedEnters(h: Handler, c: Component)
    requires h.i < |h.templates|
    ensures Enters(h.status.components, Recorded(h, c).status.components, h.templates[h.i].name, c)
  {
    var e := EntryFor(h.templates[h.i].name, c);
    forall other ensures EntryOf(Recorded(h, c).status.components, other)
                      == if other == e.name then Some(e) else EntryOf(h.status.components, other) {
      EntryAfterUpsert(h.status.components, e, other);
    }
  }

  /** After `k` calls the pass is done with the template: it goes on with the next one, or with the final write. */
  ghost predicate MovesOn(log: seq<Exchange>, trace: seq<Handler>, k: nat, w: Work) {
    && Pass(log, trace) && k <= |log|
    && trace[k].templates == w.templates && trace[k].i == w.i + 1 && trace[k].status.conditions == w.status.conditions
    && trace[k].pc == (if w.i + 1 < |w.templates| then Looking else Finishing)
    && (|log| > k ==>
          if w.i + 1 < |w.templates| then log[k].request == GetComponent(w.templates[w.i + 1].name)
          else log[k].request == ApplyApplicationStatus(trace[k].status))
  }

  /** The pass is done with the template, whose component is as `c`. */
  ghost predicate Handled(log: seq<Exchange>, trace: seq<Handler>, k: nat, w: Work, c: Component) {
    && MovesOn(log, trace, k, w) && w.i < |w.templates|
    && Enters(w.status.components, trace[k].status.components, TemplateOf(w).name, c)
  }

  lemma RecordedMovesOn(log: seq<Exchange>, trace: seq<Handler>, k: nat, w: Work, h: Handler, c: Component)
    requires Pass(log, trace) && k <= |log| && w.i < |w.templates|
    requires h.templates == w.templates && h.i == w.i && h.status == w.status && trace[k] == Recorded(h, c)
    ensures Handled(log, trace, k, w, c)
  {
    RecordedEnters(h, c);
    if |log| > k { StepAt(log, trace, k); }
  }

  /** The component is up to date as `c`: its run is looked up if its workflow is under way, else the work is done. */
  ghost predicate UpToDate(log: seq<Exchange>, trace: seq<Handler>, k: nat, w: Work, c: Component) {
    if Watched(c) then In(log, trace, k, w, ReadingRun(c)) && (|log| > k ==> log[k].request == GetRun(c.run))
    else Handled(log, trace, k, w, c)
  }

  lemma UpToDateIs(log: seq<Exchange>, trace: seq<Handler>, k: nat, w: Work, h: Handler, c: Component)
    requires Pass(log, trace) && k <= |log| && w.i < |w.templates|
    requires h.templates == w.templates && h.i == w.i && h.status == w.status && trace[k] == AfterUpdate(h, c)
    ensures UpToDate(log, trace, k, w, c)
  {
    if Watched(c) {
      if |log| > k { StepAt(log, trace, k); }
    } else {
      RecordedMovesOn(log, trace, k, w, h, c);
    }
  }

  // ---------------------------------------------------------------------------------------------------------------
  // Launching a run (handler.go:178-200, 209-231, 274-301)
  // ---------------------------------------------------------------------------------------------------------------

  /** What follows an error while a run is being launched: a creation is recorded as failed, an update just fails. */
  ghost predicate GivesUp(log: seq<Exchange>, trace: seq<Handler>, k: nat, w: Work, path: Path) {
    if path.New? then RecordsFailure(log, trace, k, w.status) else Fails(log, trace, k)
  }

  lemma AbortedGivesUp(log: seq<Exchange>, trace: seq<Handler>, k: nat, w: Work, path: Path, h: Handler)
    requires Pass(log, trace) && k <= |log| && w.i < |w.templates|
    requires h.templates == w.templates && h.i == w.i && h.status == w.status && trace[k] == Aborted(h, path)
    ensures GivesUp(log, trace, k, w, path)
  {
    if path.New? { FailureEnds(log, trace, k, w); } else { OverIsLast(log, trace, k); }
  }

  /** First WorkflowTriggered/True is stored, then the Workflow is read. */
  lemma TriggerCall(log: seq<Exchange>, trace: seq<Handler>, k: nat, w: Work, path: Path, c: Component)
    requires In(log, trace, k, w, Triggering(path, c)) && k < |log|
    ensures Stores(log[k].request, TemplateOf(w).name, c, Workflow, True, WorkflowTriggered)
    ensures if log[k].response.Stored? then In(log, trace, k + 1, w, FetchingWorkflow(path, log[k].response.component))
            else GivesUp(log, trace, k + 1, w, path)
  {
    StepAt(log, trace, k);
    StoresPut(TemplateOf(w).name, c, TRIGGERED);
    if !log[k].response.Stored? { AbortedGivesUp(log, trace, k + 1, w, path, trace[k]); }
  }

  /** The failure to trigger is stored as WorkflowTriggered/False, and then in the Application status. */
  lemma TriggerFailureCall(log: seq<Exchange>, trace: seq<Handler>, k: nat, w: Work, path: Path, c: Component)
    requires In(log, trace, k, w, TriggerFailed(path, c)) && k < |log|
    ensures Stores(log[k].request, TemplateOf(w).name, c, Workflow, False, WorkflowTriggered)
    ensures if path.New? || log[k].response.Stored? then RecordsFailure(log, trace, k + 1, w.status)
            else Fails(log, trace, k + 1)
  {
    StepAt(log, trace, k);
    StoresPut(TemplateOf(w).name, c, NOT_TRIGGERED);
    if path.New? || log[k].response.Stored? {
      FailureEnds(log, trace, k + 1, w);
    } else {
      OverIsLast(log, trace, k + 1);
    }
  }

  /** Without a Workflow a new component stays without run; everything else is a failure to trigger. */
  ghost predicate WithoutRun(log: seq<Exchange>, trace: seq<Handler>, k: nat, w: Work, path: Path, c: Component,
                             missing: bool)
  {
    In(log, trace, k, w, if missing && path.New? then Updating(New, c, None) else TriggerFailed(path, c))
  }

  /** The Workflow is read before a run is created. */
  lemma WorkflowCall(log: seq<Exchange>, trace: seq<Handler>, k: nat, w: Work, path: Path, c: Component)
    requires In(log, trace, k, w, FetchingWorkflow(path, c)) && k < |log|
    ensures log[k].request == GetWorkflow(TemplateOf(w).name)
    ensures if log[k].response.Ok? then In(log, trace, k + 1, w, StartingRun(path, c))
            else WithoutRun(log, trace, k + 1, w, path, c, log[k].response.NotFound?)
  {
    StepAt(log, trace, k);
  }

  lemma RunCall(log: seq<Exchange>, trace: seq<Handler>, k: nat, w: Work, path: Path, c: Component)
    requires In(log, trace, k, w, StartingRun(path, c)) && k < |log|
    ensures log[k].request == CreateRun(TemplateOf(w).name)
    ensures if log[k].response.RunCreated? then In(log, trace, k + 1, w, Updating(path, c, Some(log[k].response.run)))
            else WithoutRun(log, trace, k + 1, w, path, c, log[k].response.NotFound?)
  {
    StepAt(log, trace, k);
  }

  /** The Update carries the label of the new run, if there is one, and for an existing component the new spec. */
  lemma UpdateCall(log: seq<Exchange>, trace: seq<Handler>, k: nat, w: Work, path: Path, c: Component,
                   run: Option<string>)
    requires In(log, trace, k, w, Updating(path, c, run)) && k < |log|
    ensures log[k].request
         == UpdateComponent(TemplateOf(w).name,
                            c.(run := if run.Some? then run else c.run,
                               spec := if path.Existing? then TemplateOf(w).spec else c.spec))
    ensures if !log[k].response.Stored? then GivesUp(log, trace, k + 1, w, path)
            else if path.Existing? then UpToDate(log, trace, k + 1, w, log[k].response.component)
            else MovesOn(log, trace, k + 1, w)
                 && trace[k + 1].status.components == w.status.components
  {
    StepAt(log, trace, k);
    if !log[k].response.Stored? {
      AbortedGivesUp(log, trace, k + 1, w, path, trace[k]);
    } else if path.Existing? {
      UpToDateIs(log, trace, k + 1, w, trace[k], log[k].response.component);
    } else if |log| > k + 1 {
      StepAt(log, trace, k + 1);
    }
  }

  /** How a launch begun at call `k` has got to call `m`: each of its calls before succeeded. */
  ghost predicate LaunchedUpTo(log: seq<Exchange>, k: nat, m: nat) {
    && k <= m <= k + 3 && m <= |log|
    && (m > k ==> log[k].response.Stored?)
    && (m > k + 1 ==> log[k + 1].response.Ok?)
    && (m > k + 2 ==> log[k + 2].response.RunCreated?)
  }

  /**
    A launch in which everything succeeds: the trigger is stored, the Workflow read, the run created, and one Update
    labels the component as it was answered to the first call.
   */
  lemma LaunchCalls(log: seq<Exchange>, trace: seq<Handler>, k: nat, m: nat, w: Work, path: Path, c: Component)
    requires In(log, trace, k, w, Triggering(path, c)) && LaunchedUpTo(log, k, m) && m < |log|
    ensures m == k ==> Stores(log[m].request, TemplateOf(w).name, c, Workflow, True, WorkflowTriggered)
    ensures m == k + 1 ==> log[m].request == GetWorkflow(TemplateOf(w).name)
    ensures m == k + 2 ==> log[m].request == CreateRun(TemplateOf(w).name)
    ensures m == k + 3 ==>
              var stored := log[k].response.component;
              log[m].request
              == UpdateComponent(TemplateOf(w).name,
                                 stored.(run := Some(log[k + 2].response.run),
                                         spec := if path.Existing? then TemplateOf(w).spec else stored.spec))
  {
    TriggerCall(log, trace, k, w, path, c);
    if m > k { WorkflowCall(log, trace, k + 1, w, path, log[k].response.component); }
    if m > k + 1 { RunCall(log, trace, k + 2, w, path, log[k].response.component); }
    if m > k + 2 {
      UpdateCall(log, trace, k + 3, w, path, log[k].response.component, Some(log[k + 2].response.run));
    }
  }

  /** What is sent when a launch does not get its run: see WithoutRun. */
  predicate SendsWithoutRun(q: Request, t: Template, path: Path, stored: Component, missing: bool) {
    if missing && path.New? then q == UpdateComponent(t.name, stored)
    else Stores(q, t.name, stored, Workflow, False, WorkflowTriggered)
  }

  lemma WithoutRunCall(log: seq<Exchange>, trace: seq<Handler>, k: nat, w: Work, path: Path, c: Component,
                       missing: bool)
    requires WithoutRun(log, trace, k, w, path, c, missing) && k < |log|
    ensures SendsWithoutRun(log[k].request, TemplateOf(w), path, c, missing)
  {
    if missing && path.New? {
      UpdateCall(log, trace, k, w, New, c, None);
    } else {
      TriggerFailureCall(log, trace, k, w, path, c);
    }
  }

  /** The Workflow is missing or cannot be read. */
  lemma WorkflowFailureCalls(log: seq<Exchange>, trace: seq<Handler>, k: nat, w: Work, path: Path, c: Component)
    requires In(log, trace, k, w, Triggering(path, c)) && LaunchedUpTo(log, k, k + 1) && |log| > k + 2
    requires !log[k + 1].response.Ok?
    ensures SendsWithoutRun(log[k + 2].request, TemplateOf(w), path, log[k].response.component,
                            log[k + 1].response.NotFound?)
  {
    TriggerCall(log, trace, k, w, path, c);
    WorkflowCall(log, trace, k + 1, w, path, log[k].response.component);
    WithoutRunCall(log, trace, k + 2, w, path, log[k].response.component, log[k + 1].response.NotFound?);
  }

  /** The run cannot be created, or its Workflow is missing by then. */
  lemma RunFailureCalls(log: seq<Exchange>, trace: seq<Handler>, k: nat, w: Work, path: Path, c: Component)
    requires In(log, trace, k, w, Triggering(path, c)) && LaunchedUpTo(log, k, k + 2) && |log| > k + 3
    requires !log[k + 2].response.RunCreated?
    ensures SendsWithoutRun(log[k + 3].request, TemplateOf(w), path, log[k].response.component,
                            log[k + 2].response.NotFound?)
  {
    TriggerCall(log, trace, k, w, path, c);
    WorkflowCall(log, trace, k + 1, w, path, log[k].response.component);
    RunCall(log, trace, k + 2, w, path, log[k].response.component);
    WithoutRunCall(log, trace, k + 3, w, path, log[k].response.component, log[k + 2].response.NotFound?);
  }

  // ---------------------------------------------------------------------------------------------------------------
  // A component that does not exist (handler.go:82-99, 177-201)
  // ---------------------------------------------------------------------------------------------------------------

  /** The work with the Application status that says the component is being rendered. */
  function Rendering(w: Work): Work
    requires w.i < |w.templates|
  {
    w.(status := WithRendering(w.status, TemplateOf(w).name))
  }

  lemma CreationMarked(log: seq<Exchange>, trace: seq<Handler>, k: nat, w: Work)
    requires w.i < |w.templates| && In(log, trace, k, Rendering(w), MarkingNew) && k < |log|
    ensures log[k].request == ApplyApplicationStatus(Rendering(w).status)
    ensures if log[k].response.Refreshed? then In(log, trace, k + 1, Rendering(w), Creating)
            else Fails(log, trace, k + 1)
  {
    StepAt(log, trace, k);
    if !log[k].response.Refreshed? { OverIsLast(log, trace, k + 1); }
  }

  lemma CreationStored(log: seq<Exchange>, trace: seq<Handler>, k: nat, w: Work)
    requires In(log, trace, k, w, Creating) && k < |log|
    ensures log[k].request == CreateComponent(TemplateOf(w).name, Component(TemplateOf(w).spec, None, [], 0))
    ensures if log[k].response.Stored? then In(log, trace, k + 1, w, ApplyingWorkflow(log[k].response.component))
            else RecordsFailure(log, trace, k + 1, w.status)
  {
    StepAt(log, trace, k);
    if !log[k].response.Stored? { FailureEnds(log, trace, k + 1, w); }
  }

  lemma CreationApplied(log: seq<Exchange>, trace: seq<Handler>, k: nat, w: Work, c: Component)
    requires In(log, trace, k, w, ApplyingWorkflow(c)) && k < |log|
    ensures log[k].request == ApplyWorkflow(TemplateOf(w).name, c.spec)
    ensures if log[k].response.Ok? then In(log, trace, k + 1, w, Triggering(New, c))
            else RecordsFailure(log, trace, k + 1, w.status)
  {
    StepAt(log, trace, k);
    if !log[k].response.Ok? { FailureEnds(log, trace, k + 1, w); }
  }

  /**
    A component that is not found is created: the rendering is marked in the Application status, the component is
    created with its spec and nothing else, its Workflow is applied, and its run is launched. The first failure ends
    the pass; from the creation on it is recorded in the Application status.
   */
  lemma CreationCalls(log: seq<Exchange>, trace: seq<Handler>, k: nat, w: Work)
    requires LooksUp(log, trace, k, w) && log[k].response.NotFound?
    ensures log[k].request == GetComponent(TemplateOf(w).name)
    ensures |log| > k + 1 ==> Marks(log[k + 1].request, w.status, True, RenderingComponent)
    ensures |log| > k + 1 && !log[k + 1].response.Refreshed? ==> Fails(log, trace, k + 2)
    ensures |log| > k + 2 ==>
              log[k + 2].request == CreateComponent(TemplateOf(w).name, Component(TemplateOf(w).spec, None, [], 0))
    ensures |log| > k + 2 && !log[k + 2].response.Stored? ==>
              RecordsFailure(log, trace, k + 3, Rendering(w).status)
    ensures |log| > k + 3 && log[k + 2].response.Stored? ==>
              && log[k + 3].request == ApplyWorkflow(TemplateOf(w).name, log[k + 2].response.component.spec)
              && if log[k + 3].response.Ok?
                 then In(log, trace, k + 4, Rendering(w), Triggering(New, log[k + 2].response.component))
                 else RecordsFailure(log, trace, k + 4, Rendering(w).status)
  {
    StepAt(log, trace, k);
    MarksPut(w.status, TemplateOf(w).name);
    if |log| > k + 1 { CreationMarked(log, trace, k + 1, w); }
    if |log| > k + 2 { CreationStored(log, trace, k + 2, Rendering(w)); }
    if |log| > k + 3 && log[k + 2].response.Stored? {
      CreationApplied(log, trace, k + 3, Rendering(w), log[k + 2].response.component);
    }
  }

  // ---------------------------------------------------------------------------------------------------------------
  // A component that exists (handler.go:100-103, 203-237)
  // ---------------------------------------------------------------------------------------------------------------

  lemma ChangeMarked(log: seq<Exchange>, trace: seq<Handler>, k: nat, w: Work, c: Component)
    requires w.i < |w.templates| && In(log, trace, k, Rendering(w), MarkingChanged(c)) && k < |log|
    ensures Marks(log[k].request, w.status, True, RenderingComponent)
    ensures if log[k].response.Refreshed? then In(log, trace, k + 1, Rendering(w), Triggering(Existing, c))
            else Fails(log, trace, k + 1)
  {
    StepAt(log, trace, k);
    MarksPut(w.status, TemplateOf(w).name);
    if !log[k].response.Refreshed? { OverIsLast(log, trace, k + 1); }
  }

  /**
    A component that is found: with the template's spec it is up to date; with another Source the rendering is marked
    and a run is launched; any other difference is stored by one Update.
   */
  lemma ExistingCalls(log: seq<Exchange>, trace: seq<Handler>, k: nat, w: Work)
    requires LooksUp(log, trace, k, w) && log[k].response.Found?
    ensures log[k].request == GetComponent(TemplateOf(w).name)
    ensures var c, t := log[k].response.component, TemplateOf(w);
            if c.spec == t.spec then UpToDate(log, trace, k + 1, w, c)
            else if c.spec.values.source == t.spec.values.source then
              |log| > k + 1 ==>
                && log[k + 1].request == UpdateComponent(t.name, c.(spec := t.spec))
                && if log[k + 1].response.Stored? then UpToDate(log, trace, k + 2, w, log[k + 1].response.component)
                   else Fails(log, trace, k + 2)
            else
              |log| > k + 1 ==>
                && Marks(log[k + 1].request, w.status, True, RenderingComponent)
                && if log[k + 1].response.Refreshed? then In(log, trace, k + 2, Rendering(w), Triggering(Existing, c))
                   else Fails(log, trace, k + 2)
  {
    var c, t := log[k].response.component, TemplateOf(w);
    StepAt(log, trace, k);
    if c.spec == t.spec {
      UpToDateIs(log, trace, k + 1, w, trace[k], c);
    } else if c.spec.values.source == t.spec.values.source {
      if |log| > k + 1 { UpdateCall(log, trace, k + 1, w, Existing, c, None); }
    } else if |log| > k + 1 {
      ChangeMarked(log, trace, k + 1, w, c);
    }
  }

  /** Any other answer to the lookup ends the pass. */
  lemma LookupFails(log: seq<Exchange>, trace: seq<Handler>, k: nat, w: Work)
    requires LooksUp(log, trace, k, w) && !log[k].response.Found? && !log[k].response.NotFound?
    ensures Fails(log, trace, k + 1)
  {
    StepAt(log, trace, k);
    OverIsLast(log, trace, k + 1);
  }

  // ---------------------------------------------------------------------------------------------------------------
  // Mirroring a run (handler.go:105-119, 143-175)
  // ---------------------------------------------------------------------------------------------------------------

  /** A condition to be stored in a component. */
  datatype Wanted = Wanted(ctype: ComponentConditionType, status: Status, reason: Reason)

  /** What the conditions of a run call for: first its RunningAction, then its Finished condition. */
  function CalledForBy(cs: W.RunConditions): seq<Wanted> {
    var running, finished := Find(cs, W.RunningAction), Find(cs, W.Finished);
    (if running.None? then []
     else if running.value.status == True then [Wanted(Workflow, True, WorkflowRunning)]
     else [Wanted(Workflow, False, WorkflowFailed)])
    + (if finished.None? then []
       else if finished.value.status == True
       then [Wanted(Workflow, True, WorkflowSucceed), Wanted(Ready, False, Pending)]
       else [Wanted(Workflow, False, WorkflowFailed)])
  }

  lemma WritesAreCalledFor(run: string, cs: W.RunConditions)
    ensures var writes, wanted := MirrorWrites(run, cs), CalledForBy(cs);
            && |writes| == |wanted|
            && forall j :: 0 <= j < |writes| ==>
                 Wanted(writes[j].ctype, writes[j].status, writes[j].reason) == wanted[j]
  {}

  /** The writes from call `k` on: each one as wanted, on the component as the one before was answered. */
  ghost predicate StoresAll(log: seq<Exchange>, trace: seq<Handler>, k: nat, w: Work, c: Component,
                            wanted: seq<Wanted>)
    decreases |wanted|
  {
    if wanted == [] then Handled(log, trace, k, w, c)
    else
      |log| > k ==>
        && w.i < |w.templates|
        && Stores(log[k].request, TemplateOf(w).name, c, wanted[0].ctype, wanted[0].status, wanted[0].reason)
        && if log[k].response.Stored?
           then StoresAll(log, trace, k + 1, w, log[k].response.component, wanted[1..])
           else Fails(log, trace, k + 1)
  }

  lemma {:induction false} MirrorStores(log: seq<Exchange>, trace: seq<Handler>, k: nat, w: Work, h: Handler,
                                        c: Component, writes: seq<ComponentCondition>, wanted: seq<Wanted>)
    requires Pass(log, trace) && k <= |log| && w.i < |w.templates|
    requires h.templates == w.templates && h.i == w.i && h.status == w.status && trace[k] == AfterMirror(h, c, writes)
    requires |writes| == |wanted|
    requires forall j :: 0 <= j < |writes| ==>
               Wanted(writes[j].ctype, writes[j].status, writes[j].reason) == wanted[j]
    ensures StoresAll(log, trace, k, w, c, wanted)
    decreases |wanted|
  {
    if wanted == [] {
      RecordedMovesOn(log, trace, k, w, h, c);
    } else if |log| > k {
      StepAt(log, trace, k);
      StoresPut(TemplateOf(w).name, c, writes[0]);
      if log[k].response.Stored? {
        MirrorStores(log, trace, k + 1, w, trace[k], log[k].response.component, writes[1..], wanted[1..]);
      } else {
        OverIsLast(log, trace, k + 1);
      }
    }
  }

  /**
    The run of a component whose workflow is under way is looked up by the component's label, and what its conditions
    call for is stored, one write after the other; then the component is entered. A run that does not exist changes
    nothing, any other answer ends the pass.
   */
  lemma MirrorCalls(log: seq<Exchange>, trace: seq<Handler>, k: nat, w: Work, c: Component)
    requires In(log, trace, k, w, ReadingRun(c)) && k < |log|
    ensures log[k].request == GetRun(c.run)
    ensures match log[k].response
            case RunFound(cs) => StoresAll(log, trace, k + 1, w, c, CalledForBy(cs))
            case NotFound => Handled(log, trace, k + 1, w, c)
            case _ => Fails(log, trace, k + 1)
  {
    StepAt(log, trace, k);
    match log[k].response {
      case RunFound(cs) =>
        var run := if c.run.Some? then c.run.value else "";
        WritesAreCalledFor(run, cs);
        MirrorStores(log, trace, k + 1, w, trace[k], c, MirrorWrites(run, cs), CalledForBy(cs));
      case NotFound => RecordedMovesOn(log, trace, k + 1, w, trace[k], c);
      case _ => OverIsLast(log, trace, k + 1);
    }
  }

  // ---------------------------------------------------------------------------------------------------------------
  // The whole pass (handler.go:38-54)
  // ---------------------------------------------------------------------------------------------------------------

  /** A pass begins with the first template, or at once with the final write. */
  lemma PassStarts(log: seq<Exchange>, trace: seq<Handler>, templates: seq<Template>, status: ApplicationStatus)
    requires Pass(log, trace) && trace[0] == Start(templates, status) && |log| > 0
    ensures if templates != [] then LooksUp(log, trace, 0, Work(templates, 0, status))
            else log[0].request == ApplyApplicationStatus(status.(readyComponents := CountRunning(status.components),
                                                                  totalComponents := 0))
  {
    StepAt(log, trace, 0);
  }

  /** The templates of the Application as the pass last heard of them: every status write of it answers with them. */
  function TemplatesKnown(start: seq<Template>, log: seq<Exchange>): seq<Template> {
    if log == [] then start
    else if log[|log| - 1].response.Refreshed? then log[|log| - 1].response.templates
    else TemplatesKnown(start, log[..|log| - 1])
  }

  lemma StepKnows(h: Handler, r: Response)
    requires WellFormed(h) && !h.pc.Done? && !Advance(h, r).pc.Done?
    ensures Advance(h, r).current
         == if r.Refreshed? && Requested(h).ApplyApplicationStatus? then r.templates else h.current
  {}

  lemma StepCounts(h: Handler, r: Response)
    requires WellFormed(h) && !h.pc.Done? && Advance(h, r).pc.Finishing?
    ensures var next := Advance(h, r);
            && next.status.readyComponents == CountRunning(next.status.components)
            && next.status.totalComponents == |next.current|
  {}

  lemma TookStep(log: seq<Exchange>, trace: seq<Handler>, k: nat)
    requires Pass(log, trace) && k < |log|
    ensures WellFormed(trace[k]) && !trace[k].pc.Done? && Requested(trace[k]) == log[k].request
    ensures trace[k + 1] == Advance(trace[k], log[k].response)
  {
    StepAt(log, trace, k);
  }

  /** What a pass knows before call `k`; only writes of the Application status are answered with templates. */
  lemma {:induction false} KnowsTemplates(log: seq<Exchange>, trace: seq<Handler>, k: nat)
    requires Pass(log, trace) && trace[0].current == trace[0].templates && k <= |log| && !trace[k].pc.Done?
    requires forall j :: 0 <= j < k && log[j].response.Refreshed? ==> log[j].request.ApplyApplicationStatus?
    ensures trace[k].current == TemplatesKnown(trace[0].templates, log[..k])
  {
    if k > 0 {
      TookStep(log, trace, k - 1);
      StepKnows(trace[k - 1], log[k - 1].response);
      KnowsTemplates(log, trace, k - 1);
      assert log[..k][..k - 1] == log[..k - 1];
    }
  }

  /** The final status holds the counts of the entries and the templates it goes with. */
  lemma FinalStatus(log: seq<Exchange>, trace: seq<Handler>, k: nat)
    requires Pass(log, trace) && k <= |log| && trace[k].pc.Finishing?
    requires k == 0 ==> trace[0] == Start(trace[0].templates, trace[0].status)
    ensures trace[k].status.readyComponents == CountRunning(trace[k].status.components)
    ensures trace[k].status.totalComponents == |trace[k].current|
  {
    if k > 0 {
      TookStep(log, trace, k - 1);
      StepCounts(trace[k - 1], log[k - 1].response);
    }
  }

  lemma StartIsStart(h: Handler, templates: seq<Template>, status: ApplicationStatus)
    requires h == Start(templates, status)
    ensures h.templates == h.current == templates && h == Start(h.templates, h.status)
  {}

  /**
    The final write ends the pass: it carries the number of Running entries and the number of templates last heard of,
    and the pass succeeds exactly when the write does.
   */
  lemma PassEnds(log: seq<Exchange>, trace: seq<Handler>, templates: seq<Template>, status: ApplicationStatus, k: nat)
    requires Pass(log, trace) && trace[0] == Start(templates, status) && k < |log| && trace[k].pc.Finishing?
    requires forall j :: 0 <= j < k && log[j].response.Refreshed? ==> log[j].request.ApplyApplicationStatus?
    ensures log[k].request == ApplyApplicationStatus(trace[k].status) && |log| == k + 1
    ensures trace[k].status.readyComponents == CountRunning(trace[k].status.components)
    ensures trace[k].status.totalComponents == |TemplatesKnown(templates, log[..k])|
    ensures trace[k + 1].pc == Done(log[k].response.Refreshed?)
  {
    StartIsStart(trace[0], templates, status);
    FinalStatus(log, trace, k);
    KnowsTemplates(log, trace, k);
    StepAt(log, trace, k);
    OverIsLast(log, trace, k + 1);
  }
}
