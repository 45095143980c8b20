/**
  The Application controller (internal/controller/core/application/handler.go): one pass over the templates of an
  Application.

  As for the Workflow controller, `Handler`, `Requested` and `Advance` are the protocol of a pass, and class
  `ApplicationHandler` is the code, proved to make exactly the protocol's calls and to end in its final state for
  every sequence of responses. Module Controllers runs the protocol against the store.
 */
module ApplicationReconcile {
  import opened Wrappers
  import opened Conditions
  import opened Resources
  import W = WorkflowReconcile

  // ---------------------------------------------------------------------------------------------------------------
  // Status entries of the Application
  // ---------------------------------------------------------------------------------------------------------------

  /** Lines 133-139: overwrite the entry of that component, or append it. */
  function Upsert(entries: seq<Entry>, e: Entry): seq<Entry> {
    if entries == [] then [e]
    else if entries[0].name == e.name then [e] + entries[1..]
    else [entries[0]] + Upsert(entries[1..], e)
  }

  /** The entry of a component, if it has one. */
  function EntryOf(entries: seq<Entry>, name: string): Option<Entry> {
    if entries == [] then None
    else if entries[0].name == name then Some(entries[0])
    else EntryOf(entries[1..], name)
  }

  /** The upsert is a map update. */
  lemma {:induction false} EntryAfterUpsert(entries: seq<Entry>, e: Entry, name: string)
    ensures EntryOf(Upsert(entries, e), name) == if name == e.name then Some(e) else EntryOf(entries, name)
  {
    if entries == [] {
    } else if entries[0].name == e.name {
      assert Upsert(entries, e)[1..] == entries[1..];
    } else {
      EntryAfterUpsert(entries[1..], e, name);
      assert Upsert(entries, e)[1..] == Upsert(entries[1..], e);
    }
  }

  /** Lines 45-50: how many entries are Running. */
  function CountRunning(entries: seq<Entry>): (n: nat)
    ensures n <= |entries|
  {
    if entries == [] then 0
    else CountRunning(entries[..|entries| - 1]) + if entries[|entries| - 1].reason.Running? then 1 else 0
  }

  /** The entry that a component gets: its Ready reason, or Pending while it has none (lines 121-132). */
  function EntryFor(name: string, c: Component): Entry {
    var ready := Find(c.conditions, Ready);
    Entry(name, c.spec.componentType, if ready.Some? then ready.value.reason else Pending)
  }

  // ---------------------------------------------------------------------------------------------------------------
  // The protocol of one pass
  // ---------------------------------------------------------------------------------------------------------------

  datatype Request =
    | GetComponent(name: string)
    | ApplyApplicationStatus(status: ApplicationStatus)
    | CreateComponent(name: string, component: Component)
    | ApplyWorkflow(name: string, spec: Spec)
    | ApplyStatus(name: string, component: Component)
    | GetWorkflow(name: string)
    | CreateRun(name: string)
    | UpdateComponent(name: string, component: Component)
    | GetRun(run: Option<string>)

  /** A successful write answers with the object as stored; of the Application only its templates matter. */
  datatype Response =
    | Found(component: Component)
    | Stored(component: Component)
    | Refreshed(templates: seq<Template>)
    | Ok
    | RunCreated(run: string)
    | RunFound(conditions: W.RunConditions)
    | NotFound
    | Failure

  /** Whether the component was created in this pass or existed before. */
  datatype Path = New | Existing

  datatype Pc =
    | Looking                                                // Get the component (line 80)
    | MarkingNew                                             // Application status write before a create (line 85)
    | MarkingChanged(c: Component)                           // Application status write before a re-run (line 210)
    | Creating                                               // Create the component (line 178)
    | ApplyingWorkflow(c: Component)                         // setComponentWorkflow (line 181)
    | Triggering(path: Path, c: Component)                   // store WorkflowTriggered/True (lines 184, 213)
    | FetchingWorkflow(path: Path, c: Component)             // line 276
    | StartingRun(path: Path, c: Component)                  // line 297
    | TriggerFailed(path: Path, c: Component)                // store WorkflowTriggered/False (lines 192, 218)
    | Updating(path: Path, c: Component, run: Option<string>) // lines 190, 200, 231
    | ReadingRun(c: Component)                               // line 109
    | Mirroring(c: Component, writes: seq<ComponentCondition>) // status writes of updateWorkflowRunConditions
    | MarkingFailed                                          // setRenderingComponentFailedStatus
    | Finishing                                              // the final Application status write (line 53)
    | Done(ok: bool)

  /**
    A pass: the templates it ranges over, those of its copy of the Application, which every status write of the
    Application refreshes, the Application status it carries, its position and its control state.
   */
  datatype Handler = Handler(templates: seq<Template>, current: seq<Template>, status: ApplicationStatus, i: nat,
                             pc: Pc)

  predicate WellFormed(h: Handler) {
    && (h.pc.Finishing? || h.pc.Done? || h.i < |h.templates|)
    && (h.pc.Mirroring? ==> h.pc.writes != [])
  }

  function WithRendering(status: ApplicationStatus, name: string): ApplicationStatus {
    status.(conditions := Put(status.conditions, Condition(ApplicationState, True, RenderingComponent,
                                                           "Component " + name + " is being rendered")))
  }

  function WithRenderingFailed(status: ApplicationStatus, name: string): ApplicationStatus {
    status.(conditions := Put(status.conditions, Condition(ApplicationState, False, RenderingComponentFailed,
                                                           "Component " + name + " failed to render")))
  }

  const TRIGGERED := WorkflowCondition(True, WorkflowTriggered, "Workflow was triggered")
  const NOT_TRIGGERED := WorkflowCondition(False, WorkflowTriggered, "Workflow failed to trigger")

  function With(c: Component, k: ComponentCondition): Component {
    c.(conditions := Put(c.conditions, k))
  }

  /** The object sent by the Update that ends createComponent or updateComponent. */
  function Revised(path: Path, c: Component, run: Option<string>, t: Template): Component {
    var c1 := if run.Some? then c.(run := run) else c;
    if path.Existing? then c1.(spec := t.spec) else c1
  }

  function Requested(h: Handler): Request
    requires WellFormed(h) && !h.pc.Done?
  {
    if h.pc.Finishing? then ApplyApplicationStatus(h.status)
    else
      var t := h.templates[h.i];
      match h.pc
      case Looking => GetComponent(t.name)
      case MarkingNew => ApplyApplicationStatus(h.status)
      case MarkingChanged(_) => ApplyApplicationStatus(h.status)
      case Creating => CreateComponent(t.name, Component(t.spec, None, [], 0))
      case ApplyingWorkflow(c) => ApplyWorkflow(t.name, c.spec)
      case Triggering(_, c) => ApplyStatus(t.name, With(c, TRIGGERED))
      case FetchingWorkflow(_, _) => GetWorkflow(t.name)
      case StartingRun(_, _) => CreateRun(t.name)
      case TriggerFailed(_, c) => ApplyStatus(t.name, With(c, NOT_TRIGGERED))
      case Updating(path, c, run) => UpdateComponent(t.name, Revised(path, c, run, t))
      case ReadingRun(c) => GetRun(c.run)
      case Mirroring(c, writes) => ApplyStatus(t.name, With(c, writes[0]))
      case MarkingFailed => ApplyApplicationStatus(h.status)
  }

  /** The component writes that copy a run's state: first its RunningAction, then its Finished condition. */
  function MirrorRunning(run: string, conditions: W.RunConditions): seq<ComponentCondition> {
    var running := Find(conditions, W.RunningAction);
    if running.None? then []
    else if running.value.status.True?
    then [WorkflowCondition(True, WorkflowRunning, "Workflow " + run + " is running")]
    else [WorkflowCondition(False, WorkflowFailed, "Workflow " + run + " failed")]
  }

  function MirrorFinished(run: string, conditions: W.RunConditions): seq<ComponentCondition> {
    var finished := Find(conditions, W.Finished);
    if finished.None? then []
    else if finished.value.status.True?
    then [WorkflowCondition(True, WorkflowSucceed, "Workflow " + run + " finished"),
          ReadyCondition(Pending, "Component is pending a deployment")]
    else [WorkflowCondition(False, WorkflowFailed, "Workflow " + run + " failed")]
  }

  function MirrorWrites(run: string, conditions: W.RunConditions): seq<ComponentCondition> {
    MirrorRunning(run, conditions) + MirrorFinished(run, conditions)
  }

  /** The conditions left by a sequence of writes. */
  function AfterWrites(cs: ComponentConditions, writes: seq<ComponentCondition>): ComponentConditions
    decreases |writes|
  {
    if writes == [] then cs else AfterWrites(Put(cs, writes[0]), writes[1..])
  }

  lemma {:induction false} FindAfterWrites(cs: ComponentConditions, a: seq<ComponentCondition>,
                                           k: ComponentCondition, t: ComponentConditionType)
    ensures Find(AfterWrites(cs, a + [k]), t) == if t == k.ctype then Some(k) else Find(AfterWrites(cs, a), t)
    decreases |a|
  {
    if a == [] {
      assert [k][1..] == [];
      FindAfterPut(cs, k, t);
    } else {
      assert (a + [k])[1..] == a[1..] + [k];
      FindAfterWrites(Put(cs, a[0]), a[1..], k, t);
    }
  }

  /**
    What mirroring leaves: a Finished condition of the run decides over a RunningAction condition, only success makes
    the component pending for a deployment, and a run without conditions changes nothing.
   */
  lemma MirrorOutcome(cs: ComponentConditions, run: string, conditions: W.RunConditions)
    ensures var finished, running := Find(conditions, W.Finished), Find(conditions, W.RunningAction);
            var after := AfterWrites(cs, MirrorWrites(run, conditions));
            var decider := if finished.Some? then finished else running;
            && (decider.None? ==> after == cs)
            && (decider.Some? ==>
                  && Find(after, Workflow).Some?
                  && Find(after, Workflow).value.status == (if decider.value.status.True? then True else False)
                  && Find(after, Workflow).value.reason ==
                       if !decider.value.status.True? then WorkflowFailed
                       else if finished.Some? then WorkflowSucceed else WorkflowRunning)
            && Find(after, Ready) ==
                 if finished.Some? && finished.value.status.True?
                 then Some(ReadyCondition(Pending, "Component is pending a deployment")) else Find(cs, Ready)
  {
    var a, b := MirrorRunning(run, conditions), MirrorFinished(run, conditions);
    if a != [] {
      FindAfterWrites(cs, [], a[0], Workflow);
      FindAfterWrites(cs, [], a[0], Ready);
      assert a == [] + [a[0]];
    }
    if |b| == 1 {
      FindAfterWrites(cs, a, b[0], Workflow);
      FindAfterWrites(cs, a, b[0], Ready);
      assert b == [b[0]];
    } else if |b| == 2 {
      FindAfterWrites(cs, a, b[0], Workflow);
      FindAfterWrites(cs, a + [b[0]], b[1], Workflow);
      FindAfterWrites(cs, a + [b[0]], b[1], Ready);
      assert a + b == a + [b[0]] + [b[1]];
    } else {
      assert a + b == a;
    }
  }

  /** Go on with the template at position h.i, or count and store the result (lines 39-53). */
  function NextTemplate(h: Handler): Handler {
    if h.i < |h.templates| then h.(pc := Looking)
    else h.(pc := Finishing, status := h.status.(readyComponents := CountRunning(h.status.components),
                                                 totalComponents := |h.current|))
  }

  /** Lines 120-140, then the next template. */
  function Recorded(h: Handler, c: Component): Handler
    requires h.i < |h.templates|
  {
    NextTemplate(h.(status := h.status.(components := Upsert(h.status.components, EntryFor(h.templates[h.i].name, c))),
                    i := h.i + 1))
  }

  /** Lines 105-107: the run's state is only looked up while the workflow is triggered or running. */
  predicate AwaitsRun(c: Component) {
    var w := Find(c.conditions, Workflow);
    w.Some? && (w.value.reason.WorkflowRunning? || w.value.reason.WorkflowTriggered?)
  }

  function AfterUpdate(h: Handler, c: Component): Handler
    requires h.i < |h.templates|
  {
    if AwaitsRun(c) then h.(pc := ReadingRun(c)) else Recorded(h, c)
  }

  function AfterMirror(h: Handler, c: Component, writes: seq<ComponentCondition>): Handler
    requires h.i < |h.templates|
  {
    if writes == [] then Recorded(h, c) else h.(pc := Mirroring(c, writes))
  }

  function Failed(h: Handler): Handler
    requires h.i < |h.templates|
  {
    h.(pc := MarkingFailed, status := WithRenderingFailed(h.status, h.templates[h.i].name))
  }

  /** An error on the given path: createComponent's errors are recorded in the Application status (lines 88-92). */
  function Aborted(h: Handler, path: Path): Handler
    requires h.i < |h.templates|
  {
    if path.New? then Failed(h) else h.(pc := Done(false))
  }

  function Compared(h: Handler, c: Component): Handler
    requires h.i < |h.templates|
  {
    var t := h.templates[h.i];
    if c.spec == t.spec then AfterUpdate(h, c)
    else if c.spec.values.source != t.spec.values.source
    then h.(pc := MarkingChanged(c), status := WithRendering(h.status, t.name))
    else h.(pc := Updating(Existing, c, None))
  }

  /** No Workflow: a new component stays without run, an existing one is not updated (lines 188, 217). */
  function NoWorkflow(h: Handler, path: Path, c: Component): Handler {
    if path.New? then h.(pc := Updating(New, c, None)) else h.(pc := TriggerFailed(path, c))
  }

  function Advance(h: Handler, r: Response): (next: Handler)
    requires WellFormed(h) && !h.pc.Done?
    ensures WellFormed(next) && next.templates == h.templates
  {
    match h.pc
    case Looking =>
      (match r
       case Found(c) => Compared(h, c)
       case NotFound => h.(pc := MarkingNew, status := WithRendering(h.status, h.templates[h.i].name))
       case _ => h.(pc := Done(false)))
    case MarkingNew =>
      if r.Refreshed? then h.(pc := Creating, current := r.templates) else h.(pc := Done(false))
    case MarkingChanged(c) =>
      if r.Refreshed? then h.(pc := Triggering(Existing, c), current := r.templates) else h.(pc := Done(false))
    case Creating => if r.Stored? then h.(pc := ApplyingWorkflow(r.component)) else Failed(h)
    case ApplyingWorkflow(c) => if r.Ok? then h.(pc := Triggering(New, c)) else Failed(h)
    case Triggering(path, _) => if r.Stored? then h.(pc := FetchingWorkflow(path, r.component)) else Aborted(h, path)
    case FetchingWorkflow(path, c) =>
      (match r
       case Ok => h.(pc := StartingRun(path, c))
       case NotFound => NoWorkflow(h, path, c)
       case _ => h.(pc := TriggerFailed(path, c)))
    case StartingRun(path, c) =>
      (match r
       case RunCreated(name) => h.(pc := Updating(path, c, Some(name)))
       case NotFound => NoWorkflow(h, path, c)
       case _ => h.(pc := TriggerFailed(path, c)))
    case TriggerFailed(path, _) => if r.Stored? || path.New? then Failed(h) else h.(pc := Done(false))
    case Updating(path, _, _) =>
      if !r.Stored? then Aborted(h, path)
      else if path.New? then NextTemplate(h.(i := h.i + 1))
      else AfterUpdate(h, r.component)
    case ReadingRun(c) =>
      (match r
       case RunFound(conditions) => AfterMirror(h, c, MirrorWrites(if c.run.Some? then c.run.value else "", conditions))
       case NotFound => Recorded(h, c)
       case _ => h.(pc := Done(false)))
    case Mirroring(_, writes) =>
      if r.Stored? then AfterMirror(h, r.component, writes[1..]) else h.(pc := Done(false))
    case MarkingFailed => h.(pc := Done(false))
    case Finishing => h.(pc := Done(r.Refreshed?))
  }

  /** The start of a pass over an Application as read from the store. */
  function Start(templates: seq<Template>, status: ApplicationStatus): (h: Handler)
    ensures WellFormed(h)
  {
    NextTemplate(Handler(templates, templates, status, 0, Looking))
  }

  // ---------------------------------------------------------------------------------------------------------------
  // The code follows the protocol
  // ---------------------------------------------------------------------------------------------------------------

  datatype Exchange = Exchange(request: Request, response: Response)

  /** One exchange of the protocol: the request is the one due, and the response moves the pass on. */
  ghost predicate Takes(h: Handler, x: Exchange, next: Handler) {
    WellFormed(h) && !h.pc.Done? && Requested(h) == x.request && next == Advance(h, x.response)
  }

  /** The log is a run of the protocol through the states of `trace`. */
  ghost predicate Follows(start: Handler, log: seq<Exchange>, trace: seq<Handler>) {
    && |trace| == |log| + 1 && trace[0] == start
    && forall i {:trigger log[i]} :: 0 <= i < |log| ==> Takes(trace[i], log[i], trace[i + 1])
  }

  /** The API as seen by one pass; the script of responses is arbitrary. */
  class Api {
    const start: Handler
    const script: seq<Response>
    var log: seq<Exchange>
    ghost var trace: seq<Handler>

    constructor (start: Handler, script: seq<Response>)
      ensures this.start == start && this.script == script && log == [] && At(start)
    {
      this.start := start;
      this.script := script;
      log := [];
      trace := [start];
    }

    /** The calls made so far are the protocol's, and lead to `h`. */
    ghost predicate At(h: Handler)
      reads this
    {
      Follows(start, log, trace) && trace[|log|] == h
    }

    /** The pass is over, with an error. */
    ghost predicate Broken()
      reads this
    {
      Follows(start, log, trace) && trace[|log|].pc == Done(false)
    }

    method Call(request: Request, ghost h: Handler) returns (response: Response)
      requires At(h) && WellFormed(h) && !h.pc.Done? && Requested(h) == request
      modifies this
      ensures log == old(log) + [Exchange(request, response)] && trace == old(trace) + [Advance(h, response)]
      ensures response == if |old(log)| < |script| then script[|old(log)|] else Failure
      ensures At(Advance(h, response))
    {
      response := if |log| < |script| then script[|log|] else Failure;
      log := log + [Exchange(request, response)];
      trace := trace + [Advance(h, response)];
    }
  }

  lemma {:induction false} UpsertAt(entries: seq<Entry>, e: Entry, i: nat)
    requires i < |entries| && entries[i].name == e.name
    requires forall j :: 0 <= j < i ==> entries[j].name != e.name
    ensures Upsert(entries, e) == entries[i := e]
  {
    if i == 0 {
      assert entries[0 := e] == [e] + entries[1..];
    } else {
      UpsertAt(entries[1..], e, i - 1);
      assert entries[i := e] == [entries[0]] + entries[1..][i - 1 := e];
    }
  }

  lemma {:induction false} UpsertAppends(entries: seq<Entry>, e: Entry)
    requires forall j :: 0 <= j < |entries| ==> entries[j].name != e.name
    ensures Upsert(entries, e) == entries + [e]
  {
    if entries == [] {
    } else {
      UpsertAppends(entries[1..], e);
      assert entries + [e] == [entries[0]] + (entries[1..] + [e]);
    }
  }

  class ApplicationHandler {
    const api: Api
    const templates: seq<Template>
    var current: seq<Template>
    var status: ApplicationStatus

    constructor (api: Api, templates: seq<Template>, status: ApplicationStatus)
      ensures this.api == api && this.templates == this.current == templates && this.status == status
    {
      this.api := api;
      this.templates := templates;
      this.current := templates;
      this.status := status;
    }

    /** The protocol state at template `i` in control state `pc`, with the status this handler carries. */
    ghost function State(i: nat, pc: Pc): Handler
      reads this
    {
      Handler(templates, current, status, i, pc)
    }

    /** The protocol state before the template at position `i`, or before the final write. */
    ghost function NextState(i: nat): Handler
      reads this
    {
      NextTemplate(State(i, Looking))
    }

    /** setRenderingComponentStatus and setRenderingComponentFailedStatus, lines 333-343. */
    method SetApplicationCondition(c: ApplicationCondition, ghost h: Handler) returns (r: Response)
      requires api.At(h) && WellFormed(h) && !h.pc.Done?
      requires Requested(h) == ApplyApplicationStatus(status.(conditions := Put(status.conditions, c)))
      modifies this, api
      ensures status == old(status).(conditions := Put(old(status).conditions, c))
      ensures current == if r.Refreshed? then r.templates else old(current)
      ensures api.At(Advance(h, r))
    {
      var conditions := SetCondition(status.conditions, c.ctype, c.status, c.reason, c.message);
      status := status.(conditions := conditions);
      r := api.Call(ApplyApplicationStatus(status), h);
      if r.Refreshed? { current := r.templates; }
    }

    /** setConditionWorkflow and setConditionReady, lines 303-306 and 324-331. */
    method SetComponentCondition(name: string, c: Component, k: ComponentCondition, ghost h: Handler)
      returns (r: Response)
      requires api.At(h) && WellFormed(h) && !h.pc.Done? && Requested(h) == ApplyStatus(name, With(c, k))
      modifies api
      ensures api.At(Advance(h, r))
    {
      var conditions := SetCondition(c.conditions, k.ctype, k.status, k.reason, k.message);
      r := api.Call(ApplyStatus(name, c.(conditions := conditions)), h);
    }

    /** runComponentWorkflow, lines 274-301: the Workflow is read, then the run is created. */
    method RunComponentWorkflow(i: nat, path: Path, c: Component) returns (r: Response)
      requires i < |templates| && api.At(State(i, FetchingWorkflow(path, c)))
      modifies api
      ensures r.RunCreated? ==> api.At(State(i, Updating(path, c, Some(r.run))))
      ensures r.NotFound? ==> api.At(NoWorkflow(State(i, TriggerFailed(path, c)), path, c))
      ensures !r.RunCreated? && !r.NotFound? ==> api.At(State(i, TriggerFailed(path, c)))
    {
      r := api.Call(GetWorkflow(templates[i].name), State(i, FetchingWorkflow(path, c)));
      match r {
        case Ok => r := api.Call(CreateRun(templates[i].name), State(i, StartingRun(path, c)));
        case NotFound =>
        case _ => r := Failure;
      }
    }

    /** createComponent up to its first status write, lines 178-186. */
    method PlaceComponent(i: nat) returns (r: Response)
      requires i < |templates| && api.At(State(i, Creating))
      modifies api
      ensures r.Stored? ==> api.At(State(i, FetchingWorkflow(New, r.component)))
      ensures !r.Stored? ==> api.At(Failed(State(i, Creating)))
    {
      var t := templates[i];
      r := api.Call(CreateComponent(t.name, Component(t.spec, None, [], 0)), State(i, Creating));
      if !r.Stored? { return; }
      var c := r.component;
      r := api.Call(ApplyWorkflow(t.name, c.spec), State(i, ApplyingWorkflow(c)));
      if !r.Ok? { return Failure; }
      r := SetComponentCondition(t.name, c, TRIGGERED, State(i, Triggering(New, c)));
    }

    /** The Update at the end of createComponent and updateComponent. */
    method SendUpdate(i: nat, path: Path, c: Component, run: Option<string>) returns (r: Response)
      requires i < |templates| && api.At(State(i, Updating(path, c, run)))
      modifies api
      ensures path.New? ==>
                api.At(if r.Stored? then NextState(i + 1) else Failed(State(i, Creating)))
      ensures path.Existing? && r.Stored? ==> api.At(AfterUpdate(State(i, Looking), r.component))
      ensures path.Existing? && !r.Stored? ==> api.Broken()
    {
      var sent := c;
      if run.Some? { sent := sent.(run := run); }
      if path.Existing? { sent := sent.(spec := templates[i].spec); }
      r := api.Call(UpdateComponent(templates[i].name, sent), State(i, Updating(path, c, run)));
    }

    /** createComponent, lines 177-201. */
    method CreateNewComponent(i: nat) returns (ok: bool)
      requires i < |templates| && api.At(State(i, Creating))
      modifies api
      ensures ok ==> api.At(NextState(i + 1))
      ensures !ok ==> api.At(Failed(State(i, Creating)))
    {
      var r := PlaceComponent(i);
      if !r.Stored? { return false; }
      var c := r.component;
      r := RunComponentWorkflow(i, New, c);
      if !r.RunCreated? && !r.NotFound? {
        r := SetComponentCondition(templates[i].name, c, NOT_TRIGGERED, State(i, TriggerFailed(New, c)));
        return false;
      }
      var run := if r.RunCreated? then Some(r.run) else None;
      r := SendUpdate(i, New, c, run);
      return r.Stored?;
    }

    /** The failed status is stored and the pass ends, whatever the answer. */
    method RecordFailure(i: nat, ghost h: Handler)
      requires i < |templates| && h.templates == templates && h.status == status && h.i == i && api.At(Failed(h))
      modifies this, api
      ensures api.Broken()
    {
      var r := SetApplicationCondition(Condition(ApplicationState, False, RenderingComponentFailed,
                                                 "Component " + templates[i].name + " failed to render"), Failed(h));
    }

    /** Lines 218-224. */
    method RecordTriggerFailure(i: nat, c: Component)
      requires i < |templates| && api.At(State(i, TriggerFailed(Existing, c)))
      modifies this, api
      ensures api.Broken()
    {
      var r := SetComponentCondition(templates[i].name, c, NOT_TRIGGERED, State(i, TriggerFailed(Existing, c)));
      if r.Stored? {
        RecordFailure(i, State(i, TriggerFailed(Existing, c)));
      }
    }

    /** updateComponent's branch for a changed Source, lines 209-229. */
    method Retrigger(i: nat, existing: Component) returns (run: Option<string>, c: Component)
      requires i < |templates|
      requires api.At(State(i, MarkingChanged(existing)).(status := WithRendering(status, templates[i].name)))
      modifies this, api
      ensures run.Some? ==> api.At(State(i, Updating(Existing, c, run)))
      ensures run.None? ==> api.Broken()
    {
      var t := templates[i];
      ghost var h := State(i, MarkingChanged(existing)).(status := WithRendering(status, templates[i].name));
      var r := SetApplicationCondition(Condition(ApplicationState, True, RenderingComponent,
                                                 "Component " + t.name + " is being rendered"), h);
      if !r.Refreshed? { return None, existing; }
      r := SetComponentCondition(t.name, existing, TRIGGERED, State(i, Triggering(Existing, existing)));
      if !r.Stored? { return None, existing; }
      c := r.component;
      r := RunComponentWorkflow(i, Existing, c);
      if r.RunCreated? { return Some(r.run), c; }
      RecordTriggerFailure(i, c);
      return None, c;
    }

    /** updateComponent, lines 203-237. On success the existing component is left as `updated`. */
    method UpdateExistingComponent(i: nat, existing: Component) returns (ok: bool, updated: Component)
      requires i < |templates| && api.At(Compared(State(i, Looking), existing))
      modifies this, api
      ensures ok ==> api.At(AfterUpdate(State(i, Looking), updated))
      ensures !ok ==> api.Broken()
    {
      var t := templates[i];
      updated := existing;
      if existing.spec == t.spec { return true, existing; }
      var run: Option<string> := None;
      if existing.spec.values.source != t.spec.values.source {
        run, updated := Retrigger(i, existing);
        if run.None? { return false, updated; }
      }
      var r := SendUpdate(i, Existing, updated, run);
      return r.Stored?, if r.Stored? then r.component else updated;
    }

    /** One status write of updateWorkflowRunConditions. */
    method Mirror(i: nat, c: Component, k: ComponentCondition, ghost todo: seq<ComponentCondition>)
      returns (ok: bool, after: Component)
      requires i < |templates| && api.At(AfterMirror(State(i, Looking), c, [k] + todo))
      modifies api
      ensures ok ==> api.At(AfterMirror(State(i, Looking), after, todo))
      ensures !ok ==> api.Broken()
    {
      assert ([k] + todo)[1..] == todo;
      var r := SetComponentCondition(templates[i].name, c, k, State(i, Mirroring(c, [k] + todo)));
      return r.Stored?, if r.Stored? then r.component else c;
    }

    /** updateWorkflowRunConditions, lines 143-175. */
    method UpdateWorkflowRunConditions(i: nat, run: string, conditions: W.RunConditions, existing: Component)
      returns (ok: bool, c: Component)
      requires i < |templates| && api.At(AfterMirror(State(i, Looking), existing, MirrorWrites(run, conditions)))
      modifies api
      ensures ok ==> api.At(Recorded(State(i, Looking), c))
      ensures !ok ==> api.Broken()
    {
      c := existing;
      var index, present := ContainsCondition(conditions, W.RunningAction);
      var last, over := ContainsCondition(conditions, W.Finished);
      ghost var first, second := MirrorRunning(run, conditions), MirrorFinished(run, conditions);
      assert [] + second == second && second + [] == second;
      if present {
        var k := if conditions[index].status.True?
          then WorkflowCondition(True, WorkflowRunning, "Workflow " + run + " is running")
          else WorkflowCondition(False, WorkflowFailed, "Workflow " + run + " failed");
        assert first == [k];
        ok, c := Mirror(i, c, k, second);
        if !ok { return; }
      }
      if over {
        if conditions[last].status.True? {
          var k := WorkflowCondition(True, WorkflowSucceed, "Workflow " + run + " finished");
          var ready := ReadyCondition(Pending, "Component is pending a deployment");
          assert second == [k] + [ready];
          ok, c := Mirror(i, c, k, [ready]);
          if !ok { return; }
          assert [ready] == [ready] + [];
          ok, c := Mirror(i, c, ready, []);
        } else {
          var k := WorkflowCondition(False, WorkflowFailed, "Workflow " + run + " failed");
          assert second == [k] + [];
          ok, c := Mirror(i, c, k, []);
        }
        return;
      }
      return true, c;
    }

    /** The upsert loop, lines 133-139. */
    method EnterEntry(e: Entry)
      modifies this`status
      ensures status == old(status).(components := Upsert(old(status).components, e))
    {
      var entries := status.components;
      var j := 0;
      while j < |entries|
        invariant 0 <= j <= |entries| && status == old(status)
        invariant forall k :: 0 <= k < j ==> entries[k].name != e.name
      {
        if entries[j].name == e.name {
          UpsertAt(entries, e, j);
          status := status.(components := entries[j := e]);
          return;
        }
        j := j + 1;
      }
      UpsertAppends(entries, e);
      status := status.(components := entries + [e]);
    }

    /** Lines 120-140: the readiness of the component is entered in the Application status. */
    method RecordEntry(i: nat, c: Component)
      requires i < |templates| && api.At(Recorded(State(i, Looking), c))
      modifies this`status
      ensures api.At(NextState(i + 1))
    {
      var index, ready := ContainsCondition(c.conditions, Ready);
      var reason := if ready then c.conditions[index].reason else Pending;
      EnterEntry(Entry(templates[i].name, c.spec.componentType, reason));
    }

    /** Lines 108-119: look the run up by the component's label and copy its state. */
    method CopyRun(i: nat, existing: Component) returns (ok: bool, c: Component)
      requires i < |templates| && api.At(State(i, ReadingRun(existing)))
      modifies api
      ensures ok ==> api.At(Recorded(State(i, Looking), c))
      ensures !ok ==> api.Broken()
    {
      c := existing;
      var r := api.Call(GetRun(c.run), State(i, ReadingRun(c)));
      match r {
        case NotFound => return true, c;
        case RunFound(conditions) =>
          ok, c := UpdateWorkflowRunConditions(i, if c.run.Some? then c.run.value else "", conditions, c);
        case _ => return false, c;
      }
    }

    /** Lines 105-107: only a triggered or running workflow is looked up. */
    method MirrorRun(i: nat, existing: Component) returns (ok: bool, c: Component)
      requires i < |templates| && api.At(AfterUpdate(State(i, Looking), existing))
      modifies api
      ensures ok ==> api.At(Recorded(State(i, Looking), c))
      ensures !ok ==> api.Broken()
    {
      var index, present := ContainsCondition(existing.conditions, Workflow);
      if present {
        var reason := existing.conditions[index].reason;
        if reason.WorkflowRunning? || reason.WorkflowTriggered? {
          ok, c := CopyRun(i, existing);
          return;
        }
      }
      return true, existing;
    }

    /** ReconcileComponent, lines 56-141. */
    method ReconcileComponent(i: nat) returns (ok: bool)
      requires i < |templates| && api.At(NextState(i))
      modifies this, api
      ensures ok ==> api.At(NextState(i + 1))
      ensures !ok ==> api.Broken()
    {
      var t := templates[i];
      var r := api.Call(GetComponent(t.name), State(i, Looking));
      match r {
        case NotFound =>
          ghost var h := State(i, MarkingNew).(status := WithRendering(status, t.name));
          r := SetApplicationCondition(Condition(ApplicationState, True, RenderingComponent,
                                                 "Component " + t.name + " is being rendered"), h);
          if !r.Refreshed? { return false; }
          ok := CreateNewComponent(i);
          if !ok { RecordFailure(i, State(i, Creating)); }
        case Found(existing) =>
          var c;
          ok, c := UpdateExistingComponent(i, existing);
          if !ok { return false; }
          ok, c := MirrorRun(i, c);
          if ok { RecordEntry(i, c); }
        case _ => return false;
      }
    }

    /** Lines 45-50. */
    method CountReady() returns (ready: nat)
      ensures ready == CountRunning(status.components)
    {
      var entries := status.components;
      ready := 0;
      var j := 0;
      while j < |entries|
        invariant 0 <= j <= |entries|
        invariant ready == CountRunning(entries[..j])
      {
        assert entries[..j + 1][..j] == entries[..j];
        if entries[j].reason.Running? { ready := ready + 1; }
        j := j + 1;
      }
      assert entries[..j] == entries;
    }

    /** Lines 45-53: the counts are entered and the Application status is stored. */
    method Finish() returns (ok: bool)
      requires api.At(NextState(|templates|))
      modifies this, api
      ensures ok ==> api.At(State(|templates|, Done(true)))
      ensures !ok ==> api.Broken()
    {
      ghost var h := NextState(|templates|);
      var ready := CountReady();
      status := status.(readyComponents := ready, totalComponents := |current|);
      var r := api.Call(ApplyApplicationStatus(status), h);
      return r.Refreshed?;
    }

    /**
      ReconcileComponents, lines 38-54: for every script of responses the calls made are exactly those of the
      protocol, from its start to its end.
     */
    method ReconcileComponents() returns (ok: bool)
      requires current == templates && api.At(Start(templates, status))
      modifies this, api
      ensures ok ==> api.At(State(|templates|, Done(true)))
      ensures !ok ==> api.Broken()
    {
      var i := 0;
      while i < |templates|
        invariant 0 <= i <= |templates|
        invariant api.At(NextState(i))
      {
        ok := ReconcileComponent(i);
        if !ok { return; }
        i := i + 1;
      }
      ok := Finish();
    }
  }
}
