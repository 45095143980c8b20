/**
  The Application controller and the Workflow controller on one store.

  One Application with its components and its workflow runs. The Application controller works through passes, one at
  a time; every WorkflowRun is worked on by any number of Workflow reconcilers (module WorkflowRuns). Every call of a
  pass may fail, with or without having taken effect; the pass may crash between any two calls; the Application may
  be edited; other writers touch component metadata, set the Ready condition, delete components, and create further
  runs. A writer of Ready stores its whole copy of the status; the copy may be old, as long as it is safe (`SafeCopy`).

  Component reads are up to date; reads of the Application and of runs may return any past version.
 */
module Controllers {
  import opened Wrappers
  import opened Conditions
  import opened Resources
  import A = ApplicationReconcile
  import W = WorkflowReconcile
  import R = WorkflowRuns

  /** A run, with the component, the Source and the pass it was launched for. */
  datatype RunRecord = RunRecord(state: R.RunState, component: string, source: Source, pass: nat)

  datatype AppObject = AppObject(templates: seq<Template>, status: ApplicationStatus)

  datatype World = World(
    app: seq<AppObject>,                 // stored versions of the Application
    components: map<string, Component>,
    runs: map<string, RunRecord>,
    installed: map<string, nat>,         // the pass that stored the component's current Source
    pass: nat                            // number of passes begun
  )

  /** The store and the current pass; between passes the handler is Done. */
  datatype System = System(world: World, handler: A.Handler)

  datatype Effect = NoEffect | Wrote | NewRun(name: string, actions: seq<W.Action>)

  datatype Event =
    | StartPass(version: nat)
    | Answer(response: A.Response, effect: Effect)
    | Crash
    | Edit(templates: seq<Template>)
    | RunEvent(run: string, event: R.Event)
    | TouchComponent(name: string)
    | SetReady(name: string, copy: ComponentConditions, reason: Reason, message: string)
    | DeleteComponent(name: string)
    | OtherRun(name: string, component: string, source: Source, actions: seq<W.Action>)

  function NewRunState(actions: seq<W.Action>): R.RunState {
    R.RunState(actions, [[]], [], map[], [], 0, None, None)
  }

  function AfterStatus(stored: Component, sent: Component): Component {
    stored.(conditions := sent.conditions, version := stored.version + 1)
  }

  function AfterUpdate(stored: Component, sent: Component): Component {
    stored.(spec := sent.spec, run := sent.run, version := stored.version + 1)
  }

  function Latest(w: World): AppObject
    requires w.app != []
  {
    w.app[|w.app| - 1]
  }

  ghost predicate CanAnswer(w: World, q: A.Request, r: A.Response, e: Effect)
    requires w.app != []
  {
    match q
    case GetComponent(n) =>
      e.NoEffect? && (r.Found? ==> n in w.components && r.component == w.components[n])
      && (r.NotFound? ==> n !in w.components)
    case ApplyApplicationStatus(_) =>
      if e.NoEffect? then !r.Refreshed? else e.Wrote? && (r.Refreshed? ==> r.templates == Latest(w).templates)
    case CreateComponent(n, c) =>
      if e.NoEffect? then !r.Stored?
      else e.Wrote? && n !in w.components && (r.Stored? ==> r.component == c)
    case ApplyWorkflow(_, _) => e.NoEffect?
    case ApplyStatus(n, c) =>
      if e.NoEffect? then !r.Stored?
      else e.Wrote? && n in w.components && (r.Stored? ==> r.component == AfterStatus(w.components[n], c))
    case GetWorkflow(_) => e.NoEffect?
    case CreateRun(_) =>
      if e.NoEffect? then !r.RunCreated? else e.NewRun? && e.name !in w.runs && (r.RunCreated? ==> r.run == e.name)
    case UpdateComponent(n, c) =>
      if e.NoEffect? then !r.Stored?
      else e.Wrote? && n in w.components && c.version == w.components[n].version
           && (r.Stored? ==> r.component == AfterUpdate(w.components[n], c))
    case GetRun(run) =>
      e.NoEffect?
      && (r.RunFound? ==> run.Some? && run.value in w.runs && r.conditions in w.runs[run.value].state.history)
  }

  /** The Workflow condition says that the workflow succeeded. */
  predicate Succeeded(cs: ComponentConditions) {
    var k := Find(cs, Workflow);
    k.Some? && k.value.reason.WorkflowSucceed?
  }

  /** The component's Workflow condition says so. */
  predicate SaysSucceeded(c: Component) { Succeeded(c.conditions) }

  /** The component's label names a run whose last action has a completed job. */
  ghost predicate RunCompleted(w: World, c: Component) {
    c.run.Some? && c.run.value in w.runs && R.Completed(w.runs[c.run.value].state)
  }

  /**
    Which copies of a component's conditions a writer of Ready may store: those that do not say that the workflow
    succeeded, and those that rightly say so of the run the stored label names.
   */
  ghost predicate SafeCopy(w: World, n: string, copy: ComponentConditions)
    requires n in w.components
  {
    Succeeded(copy) ==> RunCompleted(w, w.components[n])
  }

  /** The store after a writer of Ready has stored its whole copy. */
  function ReadyWritten(s: System, n: string, copy: ComponentConditions, reason: Reason, message: string): System
    requires n in s.world.components
  {
    var c := s.world.components[n];
    var sent := c.(conditions := Put(copy, ReadyCondition(reason, message)));
    s.(world := s.world.(components := s.world.components[n := AfterStatus(c, sent)]))
  }

  ghost predicate Answerable(s: System, r: A.Response, e: Effect) {
    && s.world.app != []
    && A.WellFormed(s.handler) && !s.handler.pc.Done?
    && CanAnswer(s.world, A.Requested(s.handler), r, e)
  }

  ghost predicate Enabled(s: System, e: Event) {
    && s.world.app != []
    && match e
       case StartPass(k) => s.handler.pc.Done? && k < |s.world.app|
       case Answer(r, eff) => Answerable(s, r, eff)
       case Crash => !s.handler.pc.Done?
       case Edit(_) => true
       case RunEvent(run, ev) =>
         run in s.world.runs && s.world.runs[run].state.history != [] && R.Enabled(s.world.runs[run].state, ev)
       case TouchComponent(n) => n in s.world.components
       case SetReady(n, copy, _, _) => n in s.world.components && SafeCopy(s.world, n, copy)
       case DeleteComponent(n) => n in s.world.components
       case OtherRun(name, _, _, _) => name !in s.world.runs
  }

  /** The store after a call of the pass took effect. */
  function Take(w: World, h: A.Handler, q: A.Request, e: Effect): World
    requires w.app != []
  {
    match q
    case ApplyApplicationStatus(status) =>
      if e.Wrote? then w.(app := w.app + [Latest(w).(status := status)]) else w
    case CreateComponent(n, c) =>
      if e.Wrote? then w.(components := w.components[n := c], installed := w.installed[n := w.pass]) else w
    case ApplyStatus(n, c) =>
      if e.Wrote? && n in w.components
      then w.(components := w.components[n := AfterStatus(w.components[n], c)])
      else w
    case CreateRun(n) =>
      if e.NewRun? && h.i < |h.templates|
      then w.(runs := w.runs[e.name := RunRecord(NewRunState(e.actions), n, h.templates[h.i].spec.values.source,
                                                 w.pass)])
      else w
    case UpdateComponent(n, c) =>
      if e.Wrote? && n in w.components
      then w.(components := w.components[n := AfterUpdate(w.components[n], c)],
              installed := if c.spec.values.source != w.components[n].spec.values.source
                           then w.installed[n := w.pass] else w.installed)
      else w
    case _ => w
  }

  ghost function Answered(s: System, r: A.Response, e: Effect): System
    requires Answerable(s, r, e)
  {
    System(Take(s.world, s.handler, A.Requested(s.handler), e), A.Advance(s.handler, r))
  }

  ghost function Apply(s: System, e: Event): System
    requires Enabled(s, e)
  {
    var w := s.world;
    match e
    case StartPass(k) =>
      System(w.(pass := w.pass + 1), A.Start(w.app[k].templates, w.app[k].status))
    case Answer(r, eff) => Answered(s, r, eff)
    case Crash => s.(handler := s.handler.(pc := A.Done(false)))
    case Edit(templates) => s.(world := w.(app := w.app + [Latest(w).(templates := templates)]))
    case RunEvent(run, ev) =>
      s.(world := w.(runs := w.runs[run := w.runs[run].(state := R.Apply(w.runs[run].state, ev))]))
    case TouchComponent(n) =>
      s.(world := w.(components := w.components[n := w.components[n].(version := w.components[n].version + 1)]))
    case SetReady(n, copy, reason, message) => ReadyWritten(s, n, copy, reason, message)
    case DeleteComponent(n) => s.(world := w.(components := w.components - {n}))
    case OtherRun(name, component, source, actions) =>
      s.(world := w.(runs := w.runs[name := RunRecord(NewRunState(actions), component, source, 0)]))
  }

  ghost predicate Execution(states: seq<System>, events: seq<Event>) {
    && |states| == |events| + 1
    && forall i :: 0 <= i < |events| ==> Enabled(states[i], events[i]) && states[i + 1] == Apply(states[i], events[i])
  }

  /** An Application without components or runs, before its first pass. */
  predicate Initial(s: System) {
    && |s.world.app| == 1
    && s.world.components == map[] && s.world.runs == map[] && s.world.installed == map[]
    && s.world.app[0].status == ApplicationStatus([], [], 0, 0)
    && s.handler == A.Handler([], [], s.world.app[0].status, 0, A.Done(false))
  }

  // ---------------------------------------------------------------------------------------------------------------
  // The invariant
  // ---------------------------------------------------------------------------------------------------------------

  /** The component's label names a run launched for it and for its current Source, by the pass that stored it. */
  ghost predicate LabelMatches(w: World, n: string, c: Component) {
    c.run.Some? ==>
      && c.run.value in w.runs && n in w.installed
      && w.runs[c.run.value].component == n
      && w.runs[c.run.value].source == c.spec.values.source
      && w.runs[c.run.value].pass == w.installed[n]
  }

  ghost predicate ComponentInv(w: World, n: string)
    requires n in w.components
  {
    && LabelMatches(w, n, w.components[n])
    && (SaysSucceeded(w.components[n]) ==> RunCompleted(w, w.components[n]))
  }

  ghost predicate WorldInv(w: World) {
    && w.app != []
    && (forall n :: n in w.components ==> ComponentInv(w, n))
    && (forall r :: r in w.runs ==> R.Inv(w.runs[r].state))
  }

  /** The pass's copy agrees with the stored component on spec and label. */
  ghost predicate InSync(w: World, n: string, c: Component) {
    n in w.components ==> w.components[n].spec == c.spec && w.components[n].run == c.run
  }

  /** What the pass's copy says about the workflow is right. */
  ghost predicate Justified(w: World, c: Component) { SaysSucceeded(c) ==> RunCompleted(w, c) }

  /** The stored component does not say that its workflow succeeded, or the pass's copy is outdated by now. */
  predicate Unsettled(w: World, n: string, c: Component) {
    n in w.components ==>
      && c.version <= w.components[n].version
      && (c.version == w.components[n].version ==> !SaysSucceeded(w.components[n]))
  }

  /** Why a run is being launched: the component was created by this pass, or its Source is about to change. */
  ghost predicate Cause(w: World, t: Template, path: A.Path, c: Component) {
    match path
    case New => t.name in w.components ==> t.name in w.installed && w.installed[t.name] == w.pass && c.spec == t.spec
    case Existing => c.spec.values.source != t.spec.values.source
  }

  ghost predicate LaunchedFor(w: World, t: Template, run: string) {
    && run in w.runs
    && w.runs[run].component == t.name && w.runs[run].source == t.spec.values.source && w.runs[run].pass == w.pass
  }

  ghost predicate Announces(writes: seq<ComponentCondition>) {
    exists k :: k in writes && k.reason.WorkflowSucceed?
  }

  ghost predicate PcInv(w: World, t: Template, pc: A.Pc) {
    match pc
    case MarkingChanged(c) => InSync(w, t.name, c) && Cause(w, t, A.Existing, c)
    case ApplyingWorkflow(c) => InSync(w, t.name, c) && Cause(w, t, A.New, c)
    case Triggering(path, c) => InSync(w, t.name, c) && Cause(w, t, path, c)
    case FetchingWorkflow(path, c) =>
      InSync(w, t.name, c) && Cause(w, t, path, c) && Unsettled(w, t.name, c)
    case StartingRun(path, c) =>
      InSync(w, t.name, c) && Cause(w, t, path, c) && Unsettled(w, t.name, c)
    case TriggerFailed(_, c) => InSync(w, t.name, c)
    case Updating(path, c, run) =>
      && InSync(w, t.name, c)
      && (run.Some? ==> LaunchedFor(w, t, run.value) && Cause(w, t, path, c) && Unsettled(w, t.name, c))
      && (run.None? && path.Existing? ==> c.spec.values.source == t.spec.values.source)
    case ReadingRun(c) => InSync(w, t.name, c) && Justified(w, c)
    case Mirroring(c, writes) => InSync(w, t.name, c) && Justified(w, c) && (Announces(writes) ==> RunCompleted(w, c))
    case _ => true
  }

  ghost predicate HandlerInv(w: World, h: A.Handler) {
    && A.WellFormed(h)
    && (h.i < |h.templates| ==> PcInv(w, h.templates[h.i], h.pc))
  }

  ghost predicate Inv(s: System) {
    WorldInv(s.world) && HandlerInv(s.world, s.handler)
  }

  // --- Changes outside the components ---

  /** `w'` has the same components and at least the runs of `w`. */
  ghost predicate RunsGrow(w: World, w': World) {
    && w'.components == w.components && w'.installed == w.installed && w'.pass == w.pass
    && forall r :: r in w.runs ==>
         && r in w'.runs
         && w'.runs[r].component == w.runs[r].component
         && w'.runs[r].source == w.runs[r].source
         && w'.runs[r].pass == w.runs[r].pass
         && (R.Completed(w.runs[r].state) ==> R.Completed(w'.runs[r].state))
  }

  lemma RunsGrowKeeps(s: System, s': System)
    requires Inv(s) && RunsGrow(s.world, s'.world) && s'.handler == s.handler
    requires s'.world.app != [] && forall r :: r in s'.world.runs ==> R.Inv(s'.world.runs[r].state)
    ensures Inv(s')
  {
    forall n | n in s'.world.components ensures ComponentInv(s'.world, n) {
      assert ComponentInv(s.world, n);
    }
  }

  lemma RunStep(before: R.RunState, ev: R.Event)
    requires R.Inv(before) && R.Enabled(before, ev)
    ensures R.Inv(R.Apply(before, ev))
    ensures R.Completed(before) ==> R.Completed(R.Apply(before, ev))
  {
    R.StepKeeps(before, ev);
    R.JobsOnlyGrow(before, ev);
    if R.Completed(before) { R.CompletedStays(before, R.Apply(before, ev)); }
  }

  lemma RunEventGrows(s: System, e: Event)
    requires WorldInv(s.world) && e.RunEvent? && Enabled(s, e)
    ensures var w' := Apply(s, e).world;
            RunsGrow(s.world, w') && forall r :: r in w'.runs ==> R.Inv(w'.runs[r].state)
  {
    RunStep(s.world.runs[e.run].state, e.event);
  }

  lemma RunEventKeeps(s: System, e: Event)
    requires Inv(s) && e.RunEvent? && Enabled(s, e)
    ensures Inv(Apply(s, e))
  {
    RunEventGrows(s, e);
    RunsGrowKeeps(s, Apply(s, e));
  }

  lemma OtherRunKeeps(s: System, e: Event)
    requires Inv(s) && e.OtherRun? && Enabled(s, e)
    ensures Inv(Apply(s, e))
  {
    R.InitialInv(NewRunState(e.actions));
    RunsGrowKeeps(s, Apply(s, e));
  }

  // --- Changes of one component ---

  lemma OneComponentKeeps(w: World, n: string, c: Component)
    requires WorldInv(w) && n in w.components && c.spec == w.components[n].spec && c.run == w.components[n].run
    requires SaysSucceeded(c) ==> RunCompleted(w, w.components[n])
    ensures WorldInv(w.(components := w.components[n := c]))
  {
    var w' := w.(components := w.components[n := c]);
    forall m | m in w'.components ensures ComponentInv(w', m) {
      assert ComponentInv(w, m);
    }
  }

  /** The pass does not notice such a change. */
  lemma HandlerSeesNoChange(w: World, h: A.Handler, n: string, c: Component)
    requires HandlerInv(w, h) && n in w.components && c.spec == w.components[n].spec && c.run == w.components[n].run
    requires c.version > w.components[n].version
    ensures HandlerInv(w.(components := w.components[n := c]), h)
  {}

  /** A change of one component that keeps spec and label, and is right about the workflow. */
  lemma ComponentTouchKeeps(s: System, s': System, n: string, c: Component)
    requires Inv(s) && n in s.world.components
    requires s' == s.(world := s.world.(components := s.world.components[n := c]))
    requires c.spec == s.world.components[n].spec && c.run == s.world.components[n].run
    requires c.version > s.world.components[n].version
    requires SafeCopy(s.world, n, c.conditions)
    ensures Inv(s')
  {
    OneComponentKeeps(s.world, n, c);
    HandlerSeesNoChange(s.world, s.handler, n, c);
  }

  /** The conditions now stored are a safe copy. */
  lemma UpToDateIsSafe(s: System, n: string)
    requires Inv(s) && n in s.world.components
    ensures SafeCopy(s.world, n, s.world.components[n].conditions)
  {
    assert ComponentInv(s.world, n);
  }

  /**
    Exactly when a whole-status write of Ready is safe. A safe write keeps the invariant, so that no later step breaks
    the success property either; an unsafe one breaks that property at once.
   */
  lemma SafeCopyIff(s: System, n: string, copy: ComponentConditions, reason: Reason, message: string)
    requires Inv(s) && n in s.world.components
    ensures var w' := ReadyWritten(s, n, copy, reason, message).world;
            SafeCopy(s.world, n, copy) <==> (SaysSucceeded(w'.components[n]) ==> RunCompleted(w', w'.components[n]))
    ensures SafeCopy(s.world, n, copy) <==> Inv(ReadyWritten(s, n, copy, reason, message))
  {
    var s' := ReadyWritten(s, n, copy, reason, message);
    FindAfterPut(copy, ReadyCondition(reason, message), Workflow);
    if Inv(s') {
      assert ComponentInv(s'.world, n);
    }
    if SafeCopy(s.world, n, copy) {
      ComponentTouchKeeps(s, s', n, s'.world.components[n]);
    }
  }

  lemma DeleteKeeps(s: System, e: Event)
    requires Inv(s) && e.DeleteComponent? && Enabled(s, e)
    ensures Inv(Apply(s, e))
  {
    var s' := Apply(s, e);
    forall m | m in s'.world.components ensures ComponentInv(s'.world, m) {
      assert ComponentInv(s.world, m);
    }
  }

  /**
    A status write of the pass: the whole condition list of its copy `c`, with `k` set, replaces the stored list.
    It is safe if what it then says about the workflow is justified.
   */
  lemma StatusWriteKeeps(w: World, n: string, c: Component, k: ComponentCondition)
    requires WorldInv(w) && n in w.components && InSync(w, n, c)
    requires if k.ctype.Workflow? then k.reason.WorkflowSucceed? ==> RunCompleted(w, c) else Justified(w, c)
    ensures var stored := AfterStatus(w.components[n], A.With(c, k));
            var w' := w.(components := w.components[n := stored]);
            && WorldInv(w') && InSync(w', n, stored) && Justified(w', stored)
            && (SaysSucceeded(stored) <==> if k.ctype.Workflow? then k.reason.WorkflowSucceed? else SaysSucceeded(c))
  {
    var stored := AfterStatus(w.components[n], A.With(c, k));
    var w' := w.(components := w.components[n := stored]);
    FindAfterPut(c.conditions, k, Workflow);
    forall m | m in w'.components ensures ComponentInv(w', m) {
      assert ComponentInv(w, m);
    }
  }

  /** The Update of the pass: spec and label are replaced together, unless another writer came in between. */
  lemma UpdateKeeps(w: World, t: Template, path: A.Path, c: Component, run: Option<string>)
    requires WorldInv(w) && t.name in w.components && PcInv(w, t, A.Updating(path, c, run))
    requires c.version == w.components[t.name].version
    ensures var sent := A.Revised(path, c, run, t);
            var stored := AfterUpdate(w.components[t.name], sent);
            var w' := w.(components := w.components[t.name := stored],
                         installed := if sent.spec.values.source != w.components[t.name].spec.values.source
                                      then w.installed[t.name := w.pass] else w.installed);
            WorldInv(w') && InSync(w', t.name, stored) && Justified(w', stored)
  {
    var sent := A.Revised(path, c, run, t);
    var stored := AfterUpdate(w.components[t.name], sent);
    var w' := w.(components := w.components[t.name := stored],
                 installed := if sent.spec.values.source != w.components[t.name].spec.values.source
                              then w.installed[t.name := w.pass] else w.installed);
    forall m | m in w'.components ensures ComponentInv(w', m) {
      assert ComponentInv(w, m);
    }
  }

  lemma CreateKeeps(w: World, t: Template)
    requires WorldInv(w) && t.name !in w.components
    ensures var c := Component(t.spec, None, [], 0);
            var w' := w.(components := w.components[t.name := c], installed := w.installed[t.name := w.pass]);
            WorldInv(w') && InSync(w', t.name, c) && Cause(w', t, A.New, c)
  {
    var c := Component(t.spec, None, [], 0);
    var w' := w.(components := w.components[t.name := c], installed := w.installed[t.name := w.pass]);
    forall m | m in w'.components ensures ComponentInv(w', m) {
      if m != t.name { assert ComponentInv(w, m); }
    }
  }

  // --- The calls of a pass ---

  /** What a run's conditions, in any version, can make the pass announce. */
  lemma MirrorJustified(w: World, c: Component, conditions: W.RunConditions)
    requires WorldInv(w) && c.run.Some? && c.run.value in w.runs
    requires conditions in w.runs[c.run.value].state.history
    ensures Announces(A.MirrorWrites(c.run.value, conditions)) ==> RunCompleted(w, c)
    ensures Find(conditions, W.RunningAction).Some? ==> Find(conditions, W.RunningAction).value.status.True?
  {
    var s := w.runs[c.run.value].state;
    assert R.Inv(s);
    var k :| 0 <= k < |s.history| && s.history[k] == conditions;
    assert R.SoundList(s, s.history[k]);
    var finished := Find(conditions, W.Finished);
    if finished.Some? && finished.value.status.True? {
      assert R.Sound(s, conditions[0]);
    }
  }

  /** After the comparison or the Update the run is looked up, or the entry recorded. */
  lemma AfterUpdateInv(w: World, h: A.Handler, c: Component)
    requires h.i < |h.templates| && InSync(w, h.templates[h.i].name, c) && Justified(w, c)
    ensures HandlerInv(w, A.AfterUpdate(h, c))
  {}

  lemma LookingKeeps(s: System, r: A.Response, eff: Effect)
    requires Inv(s) && Answerable(s, r, eff) && s.handler.pc.Looking?
    ensures Inv(Answered(s, r, eff))
  {
    if r.Found? {
      assert ComponentInv(s.world, s.handler.templates[s.handler.i].name);
      AfterUpdateInv(s.world, s.handler, r.component);
    }
  }

  lemma ApplicationStatusKeeps(s: System, r: A.Response, eff: Effect)
    requires Inv(s) && Answerable(s, r, eff)
    requires s.handler.pc.MarkingNew? || s.handler.pc.MarkingChanged? || s.handler.pc.MarkingFailed?
          || s.handler.pc.Finishing?
    ensures Inv(Answered(s, r, eff))
  {
    var s' := Answered(s, r, eff);
    RunsGrowKeeps(s, System(s'.world, s.handler));
  }

  lemma CreatingKeeps(s: System, r: A.Response, eff: Effect)
    requires Inv(s) && Answerable(s, r, eff) && s.handler.pc.Creating?
    ensures Inv(Answered(s, r, eff))
  {
    if eff.Wrote? { CreateKeeps(s.world, s.handler.templates[s.handler.i]); }
  }

  lemma WorkflowCallsKeep(s: System, r: A.Response, eff: Effect)
    requires Inv(s) && Answerable(s, r, eff)
    requires s.handler.pc.ApplyingWorkflow? || s.handler.pc.FetchingWorkflow?
    ensures Inv(Answered(s, r, eff))
  {}

  lemma StartingRunKeeps(s: System, r: A.Response, eff: Effect)
    requires Inv(s) && Answerable(s, r, eff) && s.handler.pc.StartingRun?
    ensures Inv(Answered(s, r, eff))
  {
    var s' := Answered(s, r, eff);
    if eff.NewRun? {
      R.InitialInv(NewRunState(eff.actions));
      RunsGrowKeeps(s, System(s'.world, s.handler));
    }
  }

  lemma TriggeringKeeps(s: System, r: A.Response, eff: Effect)
    requires Inv(s) && Answerable(s, r, eff) && (s.handler.pc.Triggering? || s.handler.pc.TriggerFailed?)
    ensures Inv(Answered(s, r, eff))
  {
    var h := s.handler;
    if eff.Wrote? {
      StatusWriteKeeps(s.world, h.templates[h.i].name, h.pc.c,
                       if h.pc.Triggering? then A.TRIGGERED else A.NOT_TRIGGERED);
    }
  }

  lemma UpdatingKeeps(s: System, r: A.Response, eff: Effect)
    requires Inv(s) && Answerable(s, r, eff) && s.handler.pc.Updating?
    ensures Inv(Answered(s, r, eff))
  {
    var h := s.handler;
    if eff.Wrote? {
      UpdateKeeps(s.world, h.templates[h.i], h.pc.path, h.pc.c, h.pc.run);
      if r.Stored? { AfterUpdateInv(Answered(s, r, eff).world, h, r.component); }
    }
  }

  lemma ReadingRunKeeps(s: System, r: A.Response, eff: Effect)
    requires Inv(s) && Answerable(s, r, eff) && s.handler.pc.ReadingRun?
    ensures Inv(Answered(s, r, eff))
  {
    if r.RunFound? {
      MirrorJustified(s.world, s.handler.pc.c, r.conditions);
    }
  }

  lemma AnnouncedByParts(writes: seq<ComponentCondition>)
    requires writes != []
    ensures writes[0].reason.WorkflowSucceed? || Announces(writes[1..]) ==> Announces(writes)
  {
    if writes[0].reason.WorkflowSucceed? {
      assert writes[0] in writes;
    } else if Announces(writes[1..]) {
      var x :| x in writes[1..] && x.reason.WorkflowSucceed?;
      assert x in writes;
    }
  }

  /** After a status write the rest of the mirroring starts from the stored component. */
  lemma MirrorGoesOn(w: World, h: A.Handler, c: Component, writes: seq<ComponentCondition>)
    requires h.i < |h.templates| && InSync(w, h.templates[h.i].name, c) && Justified(w, c)
    requires Announces(writes) ==> RunCompleted(w, c)
    ensures HandlerInv(w, A.AfterMirror(h, c, writes))
  {}

  lemma MirroringKeeps(s: System, r: A.Response, eff: Effect)
    requires Inv(s) && Answerable(s, r, eff) && s.handler.pc.Mirroring?
    ensures Inv(Answered(s, r, eff))
  {
    var h := s.handler;
    AnnouncedByParts(h.pc.writes);
    if eff.Wrote? {
      StatusWriteKeeps(s.world, h.templates[h.i].name, h.pc.c, h.pc.writes[0]);
      if r.Stored? {
        MirrorGoesOn(Answered(s, r, eff).world, h, r.component, h.pc.writes[1..]);
      }
    }
  }

  lemma AnswerKeeps(s: System, r: A.Response, eff: Effect)
    requires Inv(s) && Answerable(s, r, eff)
    ensures Inv(Answered(s, r, eff))
  {
    match s.handler.pc {
      case Looking => LookingKeeps(s, r, eff);
      case MarkingNew => ApplicationStatusKeeps(s, r, eff);
      case MarkingChanged(_) => ApplicationStatusKeeps(s, r, eff);
      case Creating => CreatingKeeps(s, r, eff);
      case ApplyingWorkflow(_) => WorkflowCallsKeep(s, r, eff);
      case Triggering(_, _) => TriggeringKeeps(s, r, eff);
      case FetchingWorkflow(_, _) => WorkflowCallsKeep(s, r, eff);
      case StartingRun(_, _) => StartingRunKeeps(s, r, eff);
      case TriggerFailed(_, _) => TriggeringKeeps(s, r, eff);
      case Updating(_, _, _) => UpdatingKeeps(s, r, eff);
      case ReadingRun(_) => ReadingRunKeeps(s, r, eff);
      case Mirroring(_, _) => MirroringKeeps(s, r, eff);
      case MarkingFailed => ApplicationStatusKeeps(s, r, eff);
      case Finishing => ApplicationStatusKeeps(s, r, eff);
    }
  }

  lemma StartPassKeeps(s: System, e: Event)
    requires Inv(s) && e.StartPass? && Enabled(s, e)
    ensures Inv(Apply(s, e))
  {
    var w' := Apply(s, e).world;
    forall n | n in w'.components ensures ComponentInv(w', n) {
      assert ComponentInv(s.world, n);
    }
  }

  lemma StepKeeps(s: System, e: Event)
    requires Inv(s) && Enabled(s, e)
    ensures Inv(Apply(s, e))
  {
    match e {
      case StartPass(_) => StartPassKeeps(s, e);
      case Answer(r, eff) => AnswerKeeps(s, r, eff);
      case Crash => RunsGrowKeeps(s, s);
      case Edit(_) => RunsGrowKeeps(s, Apply(s, e));
      case RunEvent(_, _) => RunEventKeeps(s, e);
      case TouchComponent(n) =>
        UpToDateIsSafe(s, n);
        ComponentTouchKeeps(s, Apply(s, e), n, Apply(s, e).world.components[n]);
      case SetReady(n, copy, reason, message) => SafeCopyIff(s, n, copy, reason, message);
      case DeleteComponent(_) => DeleteKeeps(s, e);
      case OtherRun(_, _, _, _) => OtherRunKeeps(s, e);
    }
  }

  lemma {:induction false} Reachable(states: seq<System>, events: seq<Event>, i: nat)
    requires Execution(states, events) && Initial(states[0]) && i < |states|
    ensures Inv(states[i])
  {
    if i == 0 {
    } else {
      Reachable(states, events, i - 1);
      StepKeeps(states[i - 1], events[i - 1]);
    }
  }

  /**
    End-to-end success: in every run, a stored component whose Workflow condition is WorkflowSucceed carries a label
    naming a run whose last action has a completed job.
   */
  lemma EndToEndSuccess(states: seq<System>, events: seq<Event>, i: nat, n: string)
    requires Execution(states, events) && Initial(states[0]) && i < |states|
    requires n in states[i].world.components && SaysSucceeded(states[i].world.components[n])
    ensures RunCompleted(states[i].world, states[i].world.components[n])
  {
    Reachable(states, events, i);
    assert ComponentInv(states[i].world, n);
  }

  /**
    Label and Source move together: in every run, with failures after any call, the run named by a component's label
    was launched for that component and for the Source now stored, by the pass that stored this Source.
   */
  lemma LabelFollowsSource(states: seq<System>, events: seq<Event>, i: nat, n: string)
    requires Execution(states, events) && Initial(states[0]) && i < |states| && n in states[i].world.components
    ensures LabelMatches(states[i].world, n, states[i].world.components[n])
  {
    Reachable(states, events, i);
    assert ComponentInv(states[i].world, n);
  }

  /** The "running but false" branch of updateWorkflowRunConditions (lines 150-155) is dead in the composed system. */
  lemma RunningIsNeverFalse(states: seq<System>, events: seq<Event>, i: nat)
    requires Execution(states, events) && Initial(states[0]) && i < |events|
    requires states[i].handler.pc.ReadingRun? && events[i].Answer? && events[i].response.RunFound?
    ensures var running := Find(events[i].response.conditions, W.RunningAction);
            running.Some? ==> running.value.status.True?
  {
    Reachable(states, events, i);
    MirrorJustified(states[i].world, states[i].handler.pc.c, events[i].response.conditions);
  }
}
