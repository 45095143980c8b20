/**
  What sequences of Application passes achieve: how many runs they create, which labels they leave, and that they
  converge.
  All of it is proved on the executions of module Controllers, so in the presence of the Workflow controller and of
  other writers.
 */
module Passes {
  import opened Resources
  import opened Controllers
  import A = ApplicationReconcile

  /** The template the pass is working on. */
  predicate Handles(h: A.Handler, n: string) {
    !h.pc.Done? && h.i < |h.templates| && h.templates[h.i].name == n
  }

  // ---------------------------------------------------------------------------------------------------------------
  // Run accounting
  // ---------------------------------------------------------------------------------------------------------------

  /** The call succeeded: the pass does not turn to an error path, and the Workflow it asks for exists. */
  predicate Succeeds(h: A.Handler, r: A.Response)
    requires A.WellFormed(h) && !h.pc.Done?
  {
    var next := A.Advance(h, r).pc;
    && !next.TriggerFailed? && !next.MarkingFailed? && next != A.Done(false)
    && ((h.pc.FetchingWorkflow? || h.pc.StartingRun?) ==> !r.NotFound?)
  }

  /** No failure, no crash, the component is never removed, and nobody else creates runs for it. */
  ghost predicate FailureFree(s: System, e: Event, n: string)
    requires Enabled(s, e)
  {
    match e
    case Answer(r, _) => Succeeds(s.handler, r)
    case Crash => false
    case DeleteComponent(m) => m != n
    case OtherRun(_, component, _, _) => component != n
    case _ => true
  }

  /** The pass compares the template of `n` with the stored component, and their Sources differ. */
  ghost predicate SourceDiffers(s: System, e: Event, n: string) {
    && e.Answer? && s.handler.pc.Looking? && Handles(s.handler, n)
    && n in s.world.components
    && s.world.components[n].spec.values.source != s.handler.templates[s.handler.i].spec.values.source
  }

  /** How many comparisons during the first `m` steps found a different Source. */
  ghost function Changes(states: seq<System>, events: seq<Event>, n: string, m: nat): nat
    requires Execution(states, events) && m <= |events|
  {
    if m == 0 then 0
    else Changes(states, events, n, m - 1) + if SourceDiffers(states[m - 1], events[m - 1], n) then 1 else 0
  }

  ghost function RunsOf(w: World, n: string): set<string> {
    set r | r in w.runs && w.runs[r].component == n
  }

  /** The pass has decided to launch a run for `n` and has not created it yet. */
  predicate Owes(h: A.Handler, n: string) {
    && Handles(h, n)
    && (h.pc.MarkingChanged? || h.pc.ApplyingWorkflow? || h.pc.Triggering? || h.pc.FetchingWorkflow?
        || h.pc.StartingRun?)
  }

  function Flag(b: bool): nat { if b then 1 else 0 }

  ghost predicate Balanced(s: System, n: string, changes: nat) {
    |RunsOf(s.world, n)| + Flag(Owes(s.handler, n)) == Flag(n in s.world.components) + changes
  }

  lemma NewRunCounts(w: World, w': World, name: string, rec: RunRecord, n: string)
    requires name !in w.runs && w'.runs == w.runs[name := rec]
    ensures |RunsOf(w', n)| == |RunsOf(w, n)| + Flag(rec.component == n)
  {
    if rec.component == n {
      assert RunsOf(w', n) == RunsOf(w, n) + {name};
    } else {
      assert RunsOf(w', n) == RunsOf(w, n);
    }
  }

  lemma SameRunsCount(w: World, w': World, n: string)
    requires w'.runs.Keys == w.runs.Keys
    requires forall r :: r in w.runs ==> w'.runs[r].component == w.runs[r].component
    ensures RunsOf(w', n) == RunsOf(w, n)
  {}

  /** Creating the run settles what is owed. */
  lemma StartBalances(s: System, r: A.Response, eff: Effect, n: string, changes: nat)
    requires Answerable(s, r, eff) && Succeeds(s.handler, r) && Balanced(s, n, changes) && s.handler.pc.StartingRun?
    ensures Balanced(Answered(s, r, eff), n, changes)
  {
    var w' := Answered(s, r, eff).world;
    NewRunCounts(s.world, w', eff.name, w'.runs[eff.name], n);
  }

  /** A comparison that finds another Source makes the pass owe a run. */
  lemma LookingBalances(s: System, r: A.Response, eff: Effect, n: string, changes: nat)
    requires Answerable(s, r, eff) && Succeeds(s.handler, r) && Balanced(s, n, changes) && s.handler.pc.Looking?
    ensures Balanced(Answered(s, r, eff), n, changes + Flag(SourceDiffers(s, Answer(r, eff), n)))
  {}

  lemma PlainKeepsComponents(s: System, r: A.Response, eff: Effect)
    requires Answerable(s, r, eff) && !s.handler.pc.Creating?
    ensures Answered(s, r, eff).world.components.Keys == s.world.components.Keys
  {}

  /** Creating a component makes the pass owe its first run. */
  lemma CreatingBalances(s: System, r: A.Response, eff: Effect, n: string, changes: nat)
    requires Answerable(s, r, eff) && Succeeds(s.handler, r) && Balanced(s, n, changes) && s.handler.pc.Creating?
    ensures Balanced(Answered(s, r, eff), n, changes)
  {
    SameRunsCount(s.world, Answered(s, r, eff).world, n);
  }

  lemma PlainKeepsDebt(s: System, r: A.Response, eff: Effect, n: string)
    requires Answerable(s, r, eff) && Succeeds(s.handler, r)
    requires !s.handler.pc.Looking? && !s.handler.pc.StartingRun? && !s.handler.pc.Creating?
    ensures Owes(A.Advance(s.handler, r), n) == Owes(s.handler, n)
  {}

  lemma PlainKeepsRuns(s: System, r: A.Response, eff: Effect)
    requires Answerable(s, r, eff) && !s.handler.pc.StartingRun?
    ensures Answered(s, r, eff).world.runs == s.world.runs
  {}

  /** Every other call leaves runs and debt alone. */
  lemma PlainBalances(s: System, r: A.Response, eff: Effect, n: string, changes: nat)
    requires Answerable(s, r, eff) && Succeeds(s.handler, r) && Balanced(s, n, changes)
    requires !s.handler.pc.Looking? && !s.handler.pc.StartingRun? && !s.handler.pc.Creating?
    ensures Balanced(Answered(s, r, eff), n, changes)
  {
    PlainKeepsRuns(s, r, eff);
    PlainKeepsDebt(s, r, eff, n);
    PlainKeepsComponents(s, r, eff);
  }

  lemma AnswerBalances(s: System, e: Event, n: string, changes: nat)
    requires Enabled(s, e) && e.Answer? && FailureFree(s, e, n) && Balanced(s, n, changes)
    ensures Balanced(Apply(s, e), n, changes + Flag(SourceDiffers(s, e, n)))
  {
    if s.handler.pc.StartingRun? {
      StartBalances(s, e.response, e.effect, n, changes);
    } else if s.handler.pc.Looking? {
      LookingBalances(s, e.response, e.effect, n, changes);
    } else if s.handler.pc.Creating? {
      CreatingBalances(s, e.response, e.effect, n, changes);
    } else {
      PlainBalances(s, e.response, e.effect, n, changes);
    }
  }

  lemma StepBalances(s: System, e: Event, n: string, changes: nat)
    requires Enabled(s, e) && FailureFree(s, e, n) && Balanced(s, n, changes)
    ensures Balanced(Apply(s, e), n, changes + Flag(SourceDiffers(s, e, n)))
  {
    var s' := Apply(s, e);
    match e {
      case Answer(_, _) => AnswerBalances(s, e, n, changes);
      case OtherRun(name, _, _, _) => NewRunCounts(s.world, s'.world, name, s'.world.runs[name], n);
      case _ => SameRunsCount(s.world, s'.world, n);
    }
  }

  lemma {:induction false} AllBalanced(states: seq<System>, events: seq<Event>, n: string, m: nat)
    requires Execution(states, events) && Initial(states[0]) && m <= |events|
    requires forall k :: 0 <= k < m ==> FailureFree(states[k], events[k], n)
    ensures Balanced(states[m], n, Changes(states, events, n, m))
  {
    if m == 0 {
      assert RunsOf(states[0].world, n) == {};
    } else {
      AllBalanced(states, events, n, m - 1);
      StepBalances(states[m - 1], events[m - 1], n, Changes(states, events, n, m - 1));
    }
  }

  /**
    Run accounting: in a failure-free execution, whenever no pass is under way, a component has as many runs as one
    plus the number of times a pass found its template's Source different from the stored one.
   */
  lemma RunAccounting(states: seq<System>, events: seq<Event>, n: string, m: nat)
    requires Execution(states, events) && Initial(states[0]) && m <= |events|
    requires forall k :: 0 <= k < m ==> FailureFree(states[k], events[k], n)
    requires states[m].handler.pc.Done? && n in states[m].world.components
    ensures |RunsOf(states[m].world, n)| == 1 + Changes(states, events, n, m)
  {
    AllBalanced(states, events, n, m);
  }

  /** Without failures the pass that owes a label to the component goes on to write it. */
  predicate Labelling(h: A.Handler, n: string) {
    Owes(h, n) || (Handles(h, n) && h.pc.Updating? && h.pc.run.Some?)
  }

  ghost predicate Labelled(s: System, n: string) {
    && (n in s.world.components && s.world.components[n].run.None? ==> Labelling(s.handler, n))
    && (Handles(s.handler, n) && s.handler.pc.Updating? && s.handler.pc.path.New? ==> s.handler.pc.run.Some?)
  }

  lemma UpdateLabels(s: System, r: A.Response, eff: Effect, n: string)
    requires Inv(s) && Answerable(s, r, eff) && Succeeds(s.handler, r) && Labelled(s, n) && s.handler.pc.Updating?
    ensures Labelled(Answered(s, r, eff), n)
  {
    assert PcInv(s.world, s.handler.templates[s.handler.i], s.handler.pc);
  }

  lemma CreationLabels(s: System, r: A.Response, eff: Effect, n: string)
    requires Inv(s) && Answerable(s, r, eff) && Succeeds(s.handler, r) && Labelled(s, n) && s.handler.pc.Creating?
    ensures Labelled(Answered(s, r, eff), n)
  {}

  /** Status writes keep the label of the stored component. */
  lemma StatusCallKeepsLabels(s: System, r: A.Response, eff: Effect, n: string)
    requires Answerable(s, r, eff) && !s.handler.pc.Updating? && !s.handler.pc.Creating?
    ensures var w, w' := s.world, Answered(s, r, eff).world;
            w'.components.Keys == w.components.Keys
            && (n in w.components ==> w'.components[n].run == w.components[n].run)
  {}

  lemma CallLabels(s: System, r: A.Response, eff: Effect, n: string)
    requires Answerable(s, r, eff) && Succeeds(s.handler, r) && Labelled(s, n)
    requires !s.handler.pc.Updating? && !s.handler.pc.Creating?
    ensures Labelled(Answered(s, r, eff), n)
  {
    StatusCallKeepsLabels(s, r, eff, n);
  }

  lemma StepLabels(s: System, e: Event, n: string)
    requires Inv(s) && Enabled(s, e) && FailureFree(s, e, n) && Labelled(s, n)
    ensures Labelled(Apply(s, e), n)
  {
    if e.Answer? {
      if s.handler.pc.Updating? {
        UpdateLabels(s, e.response, e.effect, n);
      } else if s.handler.pc.Creating? {
        CreationLabels(s, e.response, e.effect, n);
      } else {
        CallLabels(s, e.response, e.effect, n);
      }
    }
  }

  lemma {:induction false} LabelledFrom(states: seq<System>, events: seq<Event>, n: string, k: nat, m: nat)
    requires Execution(states, events) && Initial(states[0]) && k <= m <= |events| && Labelled(states[k], n)
    requires forall i :: k <= i < m ==> FailureFree(states[i], events[i], n)
    ensures Labelled(states[m], n)
  {
    if k == m {
    } else {
      LabelledFrom(states, events, n, k, m - 1);
      Reachable(states, events, m - 1);
      StepLabels(states[m - 1], events[m - 1], n);
    }
  }

  /**
    In a failure-free execution, whenever no pass is under way, every component carries a label, and the run it names
    was launched for this component and for the Source now stored.
   */
  lemma EveryComponentLabelled(states: seq<System>, events: seq<Event>, n: string, m: nat)
    requires Execution(states, events) && Initial(states[0]) && m <= |events|
    requires forall k :: 0 <= k < m ==> FailureFree(states[k], events[k], n)
    requires states[m].handler.pc.Done? && n in states[m].world.components
    ensures var w := states[m].world;
            var c := w.components[n];
            c.run.Some? && c.run.value in RunsOf(w, n) && w.runs[c.run.value].source == c.spec.values.source
  {
    LabelledFrom(states, events, n, 0, m);
    LabelFollowsSource(states, events, m, n);
  }

  /** The component has no label, and the pass at work is not going to give it one. */
  predicate Unlabelled(s: System, n: string) {
    n in s.world.components && s.world.components[n].run.None? && !Labelling(s.handler, n)
  }

  lemma CallKeepsUnlabelled(s: System, r: A.Response, eff: Effect, n: string)
    requires Answerable(s, r, eff) && Unlabelled(s, n) && !SourceDiffers(s, Answer(r, eff), n)
    requires !s.handler.pc.Updating? && !s.handler.pc.Creating?
    ensures Unlabelled(Answered(s, r, eff), n)
  {
    StatusCallKeepsLabels(s, r, eff, n);
  }

  lemma CreationKeepsUnlabelled(s: System, r: A.Response, eff: Effect, n: string)
    requires Answerable(s, r, eff) && Unlabelled(s, n) && s.handler.pc.Creating?
    ensures Unlabelled(Answered(s, r, eff), n)
  {}

  lemma UpdateKeepsUnlabelled(s: System, r: A.Response, eff: Effect, n: string)
    requires Inv(s) && Answerable(s, r, eff) && Unlabelled(s, n) && s.handler.pc.Updating?
    ensures Unlabelled(Answered(s, r, eff), n)
  {
    assert PcInv(s.world, s.handler.templates[s.handler.i], s.handler.pc);
  }

  lemma StepKeepsUnlabelled(s: System, e: Event, n: string)
    requires Inv(s) && Enabled(s, e) && Unlabelled(s, n) && !SourceDiffers(s, e, n)
    requires e.DeleteComponent? ==> e.name != n
    ensures Unlabelled(Apply(s, e), n)
  {
    if e.Answer? {
      if s.handler.pc.Updating? {
        UpdateKeepsUnlabelled(s, e.response, e.effect, n);
      } else if s.handler.pc.Creating? {
        CreationKeepsUnlabelled(s, e.response, e.effect, n);
      } else {
        CallKeepsUnlabelled(s, e.response, e.effect, n);
      }
    }
  }

  /**
    When a label is missing: a component that is left without one, because its creating pass stopped before the Update
    or because its Workflow did not exist, stays without one in every execution, until a pass finds another Source.
   */
  lemma {:induction false} UnlabelledStays(states: seq<System>, events: seq<Event>, n: string, k: nat, m: nat)
    requires Execution(states, events) && Initial(states[0]) && k <= m < |states| && Unlabelled(states[k], n)
    requires forall i :: k <= i < m ==>
               !SourceDiffers(states[i], events[i], n) && (events[i].DeleteComponent? ==> events[i].name != n)
    ensures Unlabelled(states[m], n)
  {
    if k == m {
    } else {
      UnlabelledStays(states, events, n, k, m - 1);
      Reachable(states, events, m - 1);
      StepKeepsUnlabelled(states[m - 1], events[m - 1], n);
    }
  }

  lemma DifferenceOwes(s: System, e: Event, n: string)
    requires Enabled(s, e) && SourceDiffers(s, e, n) && FailureFree(s, e, n)
    ensures Labelled(Apply(s, e), n)
  {}

  /** When a pass does find another Source and nothing fails from then on, the component is labelled. */
  lemma ChangeLabels(states: seq<System>, events: seq<Event>, n: string, k: nat, m: nat)
    requires Execution(states, events) && Initial(states[0]) && k < m <= |events|
    requires SourceDiffers(states[k], events[k], n)
    requires forall i :: k <= i < m ==> FailureFree(states[i], events[i], n)
    requires states[m].handler.pc.Done? && n in states[m].world.components
    ensures states[m].world.components[n].run.Some?
  {
    Reachable(states, events, k);
    DifferenceOwes(states[k], events[k], n);
    LabelledFrom(states, events, n, k + 1, m);
  }

  // ---------------------------------------------------------------------------------------------------------------
  // Convergence
  // ---------------------------------------------------------------------------------------------------------------

  ghost predicate DistinctNames(templates: seq<Template>) {
    forall i, j :: 0 <= i < j < |templates| ==> templates[i].name != templates[j].name
  }

  /** The template's component is stored with the template's spec. */
  predicate Installed(w: World, t: Template) {
    t.name in w.components && w.components[t.name].spec == t.spec
  }

  ghost predicate InstalledUpTo(w: World, templates: seq<Template>, k: nat) {
    k <= |templates| && forall j :: 0 <= j < k ==> Installed(w, templates[j])
  }

  /** Control states in which the template being handled is already installed. */
  predicate Settled(t: Template, pc: A.Pc) {
    match pc
    case ApplyingWorkflow(c) => c.spec == t.spec
    case Triggering(path, c) => path.New? ==> c.spec == t.spec
    case FetchingWorkflow(path, c) => path.New? ==> c.spec == t.spec
    case StartingRun(path, c) => path.New? ==> c.spec == t.spec
    case Updating(path, c, _) => path.New? ==> c.spec == t.spec
    case ReadingRun(c) => c.spec == t.spec
    case Mirroring(c, _) => c.spec == t.spec
    case _ => true
  }

  /** The pass works on a component that exists. */
  predicate Present(w: World, t: Template, pc: A.Pc) {
    || pc.Looking? || pc.MarkingNew? || pc.Creating? || pc.MarkingFailed? || pc.Finishing? || pc.Done?
    || t.name in w.components
  }

  ghost predicate Progress(w: World, h: A.Handler) {
    && InstalledUpTo(w, h.templates, h.i)
    && (h.pc.Finishing? || h.pc == A.Done(true) ==> h.i == |h.templates|)
    && (h.i < |h.templates| ==> Settled(h.templates[h.i], h.pc) && Present(w, h.templates[h.i], h.pc))
  }

  /** Specs are written only at the name being handled, so earlier templates stay installed. */
  lemma OthersStayInstalled(w: World, w': World, templates: seq<Template>, k: nat)
    requires DistinctNames(templates) && InstalledUpTo(w, templates, k) && k < |templates|
    requires forall n :: n in w.components && n != templates[k].name ==>
               n in w'.components && w'.components[n].spec == w.components[n].spec
    ensures InstalledUpTo(w', templates, k)
  {
    forall j | 0 <= j < k ensures Installed(w', templates[j]) {
      assert Installed(w, templates[j]);
    }
  }

  /** What one call does to the template being handled: it stays with it, or moves on having installed it. */
  ghost predicate Handled(h: A.Handler, w': World, h': A.Handler)
    requires h.i < |h.templates|
  {
    var t := h.templates[h.i];
    if h'.i == h.i then Settled(t, h'.pc) && Present(w', t, h'.pc) && !h'.pc.Finishing? && h'.pc != A.Done(true)
    else h'.i == h.i + 1 && Installed(w', t) && h'.pc == if h'.i < |h.templates| then A.Looking else A.Finishing
  }

  lemma RecordedHandled(h: A.Handler, w': World, c: Component)
    requires h.i < |h.templates| && Installed(w', h.templates[h.i]) && c.spec == h.templates[h.i].spec
    ensures Handled(h, w', A.Recorded(h, c)) && Handled(h, w', A.AfterUpdate(h, c))
    ensures forall writes :: Handled(h, w', A.AfterMirror(h, c, writes))
  {}

  lemma CreatingHandled(s: System, r: A.Response, eff: Effect)
    requires Inv(s) && Answerable(s, r, eff) && s.handler.i < |s.handler.templates|
    requires Progress(s.world, s.handler)
    requires s.handler.pc.MarkingNew? || s.handler.pc.Creating? || s.handler.pc.ApplyingWorkflow?
    ensures Handled(s.handler, Answered(s, r, eff).world, Answered(s, r, eff).handler)
  {}

  lemma LaunchingHandled(s: System, r: A.Response, eff: Effect)
    requires Inv(s) && Answerable(s, r, eff) && s.handler.i < |s.handler.templates|
    requires Progress(s.world, s.handler)
    requires s.handler.pc.MarkingChanged? || s.handler.pc.FetchingWorkflow? || s.handler.pc.StartingRun?
    ensures Handled(s.handler, Answered(s, r, eff).world, Answered(s, r, eff).handler)
  {}

  lemma TriggeringHandled(s: System, r: A.Response, eff: Effect)
    requires Inv(s) && Answerable(s, r, eff) && s.handler.i < |s.handler.templates|
    requires Progress(s.world, s.handler)
    requires s.handler.pc.Triggering?
    ensures Handled(s.handler, Answered(s, r, eff).world, Answered(s, r, eff).handler)
  {}

  lemma FailingHandled(s: System, r: A.Response, eff: Effect)
    requires Inv(s) && Answerable(s, r, eff) && s.handler.i < |s.handler.templates|
    requires Progress(s.world, s.handler)
    requires s.handler.pc.TriggerFailed? || s.handler.pc.MarkingFailed?
    ensures Handled(s.handler, Answered(s, r, eff).world, Answered(s, r, eff).handler)
  {}

  lemma RecordingCallHandled(s: System, r: A.Response, eff: Effect)
    requires Inv(s) && Answerable(s, r, eff) && s.handler.i < |s.handler.templates|
    requires Progress(s.world, s.handler)
    requires s.handler.pc.ReadingRun? || s.handler.pc.Mirroring?
    ensures Handled(s.handler, Answered(s, r, eff).world, Answered(s, r, eff).handler)
  {
    var h := s.handler;
    var w' := Answered(s, r, eff).world;
    RecordedHandled(h, w', if h.pc.Mirroring? && r.Stored? then r.component else h.pc.c);
  }

  lemma LookingHandled(s: System, r: A.Response, eff: Effect)
    requires Inv(s) && Answerable(s, r, eff) && s.handler.i < |s.handler.templates|
    requires s.handler.pc.Looking?
    ensures Handled(s.handler, Answered(s, r, eff).world, Answered(s, r, eff).handler)
  {
    var h := s.handler;
    if r.Found? && r.component.spec == h.templates[h.i].spec {
      RecordedHandled(h, s.world, r.component);
    }
  }

  lemma UpdatingHandled(s: System, r: A.Response, eff: Effect)
    requires Inv(s) && Answerable(s, r, eff) && s.handler.i < |s.handler.templates|
    requires Progress(s.world, s.handler) && s.handler.pc.Updating?
    ensures Handled(s.handler, Answered(s, r, eff).world, Answered(s, r, eff).handler)
  {
    var h := s.handler;
    if r.Stored? && h.pc.path.Existing? {
      RecordedHandled(h, Answered(s, r, eff).world, r.component);
    }
  }

  lemma HandledProgresses(w: World, h: A.Handler, w': World, h': A.Handler)
    requires DistinctNames(h.templates) && InstalledUpTo(w, h.templates, h.i) && h.i < |h.templates|
    requires h'.templates == h.templates && Handled(h, w', h')
    requires forall n :: n in w.components && n != h.templates[h.i].name ==>
               n in w'.components && w'.components[n].spec == w.components[n].spec
    ensures Progress(w', h')
  {
    OthersStayInstalled(w, w', h.templates, h.i);
  }

  lemma CallTouchesOnly(s: System, r: A.Response, eff: Effect, n: string)
    requires Answerable(s, r, eff) && s.handler.i < |s.handler.templates|
    requires n in s.world.components && n != s.handler.templates[s.handler.i].name
    ensures n in Answered(s, r, eff).world.components
    ensures Answered(s, r, eff).world.components[n].spec == s.world.components[n].spec
  {}

  lemma CallTouchesOnlyHandled(s: System, r: A.Response, eff: Effect)
    requires Answerable(s, r, eff) && s.handler.i < |s.handler.templates|
    ensures var w' := Answered(s, r, eff).world;
            forall n :: n in s.world.components && n != s.handler.templates[s.handler.i].name ==>
              n in w'.components && w'.components[n].spec == s.world.components[n].spec
  {
    var w' := Answered(s, r, eff).world;
    forall n | n in s.world.components && n != s.handler.templates[s.handler.i].name
      ensures n in w'.components && w'.components[n].spec == s.world.components[n].spec
    {
      CallTouchesOnly(s, r, eff, n);
    }
  }

  lemma AnswerProgresses(s: System, r: A.Response, eff: Effect)
    requires Inv(s) && Answerable(s, r, eff)
    requires DistinctNames(s.handler.templates) && Progress(s.world, s.handler)
    requires s.handler.i < |s.handler.templates| && !s.handler.pc.Finishing?
    ensures Progress(Answered(s, r, eff).world, Answered(s, r, eff).handler)
  {
    var h := s.handler;
    if h.pc.Looking? { LookingHandled(s, r, eff); }
    else if h.pc.Updating? { UpdatingHandled(s, r, eff); }
    else if h.pc.ReadingRun? || h.pc.Mirroring? { RecordingCallHandled(s, r, eff); }
    else if h.pc.MarkingNew? || h.pc.Creating? || h.pc.ApplyingWorkflow? { CreatingHandled(s, r, eff); }
    else if h.pc.Triggering? { TriggeringHandled(s, r, eff); }
    else if h.pc.TriggerFailed? || h.pc.MarkingFailed? { FailingHandled(s, r, eff); }
    else { LaunchingHandled(s, r, eff); }
    CallTouchesOnlyHandled(s, r, eff);
    HandledProgresses(s.world, h, Answered(s, r, eff).world, Answered(s, r, eff).handler);
  }

  lemma OutsideProgresses(s: System, e: Event)
    requires Inv(s) && Enabled(s, e) && !e.DeleteComponent? && !e.StartPass?
    requires e.Answer? ==> s.handler.i >= |s.handler.templates|
    requires Progress(s.world, s.handler)
    ensures Progress(Apply(s, e).world, Apply(s, e).handler)
  {
    var w' := Apply(s, e).world;
    forall j | 0 <= j < s.handler.i ensures Installed(w', s.handler.templates[j]) {
      assert Installed(s.world, s.handler.templates[j]);
    }
  }

  lemma StepProgresses(s: System, e: Event)
    requires Inv(s) && Enabled(s, e) && !e.DeleteComponent? && !e.StartPass?
    requires DistinctNames(s.handler.templates) && Progress(s.world, s.handler)
    ensures Progress(Apply(s, e).world, Apply(s, e).handler)
  {
    if e.Answer? && s.handler.i < |s.handler.templates| {
      AnswerProgresses(s, e.response, e.effect);
    } else {
      OutsideProgresses(s, e);
    }
  }

  /** From step `i` to step `j` one pass is at work and no component is deleted. */
  ghost predicate OnePass(states: seq<System>, events: seq<Event>, i: nat, j: nat)
    requires Execution(states, events)
  {
    && i < j < |states| && events[i].StartPass?
    && forall k :: i < k < j ==> !events[k].StartPass? && !events[k].DeleteComponent?
  }

  lemma {:induction false} TemplatesFixed(states: seq<System>, events: seq<Event>, i: nat, j: nat)
    requires Execution(states, events) && OnePass(states, events, i, j)
    ensures states[j].handler.templates == states[i + 1].handler.templates
  {
    if i + 1 == j {
    } else {
      TemplatesFixed(states, events, i, j - 1);
    }
  }

  lemma StartProgresses(s: System, e: Event)
    requires Enabled(s, e) && e.StartPass?
    ensures Progress(Apply(s, e).world, Apply(s, e).handler)
  {}

  lemma {:induction false} PassProgresses(states: seq<System>, events: seq<Event>, i: nat, j: nat)
    requires Execution(states, events) && Initial(states[0]) && OnePass(states, events, i, j)
    requires DistinctNames(states[i + 1].handler.templates)
    ensures Progress(states[j].world, states[j].handler)
  {
    if i + 1 == j {
      StartProgresses(states[i], events[i]);
    } else {
      PassProgresses(states, events, i, j - 1);
      TemplatesFixed(states, events, i, j - 1);
      Reachable(states, events, j - 1);
      StepProgresses(states[j - 1], events[j - 1]);
    }
  }

  /** Requests that create nothing, write no spec and start no run. */
  predicate OnlyReadsAndStatus(q: A.Request) {
    q.GetComponent? || q.GetRun? || q.ApplyStatus? || q.ApplyApplicationStatus?
  }

  predicate Quiet(h: A.Handler) {
    h.pc.Looking? || h.pc.ReadingRun? || h.pc.Mirroring? || h.pc.Finishing? || h.pc.Done?
  }

  ghost predicate SameSpecsAndLabels(w: World, w': World) {
    && w'.components.Keys == w.components.Keys
    && forall n :: n in w.components ==>
         w'.components[n].spec == w.components[n].spec && w'.components[n].run == w.components[n].run
  }

  ghost predicate AllInstalled(w: World, templates: seq<Template>) {
    InstalledUpTo(w, templates, |templates|)
  }

  lemma QuietAnswer(s: System, r: A.Response, eff: Effect)
    requires Answerable(s, r, eff) && Quiet(s.handler) && AllInstalled(s.world, s.handler.templates)
    ensures Quiet(Answered(s, r, eff).handler) && SameSpecsAndLabels(s.world, Answered(s, r, eff).world)
  {
    if s.handler.i < |s.handler.templates| {
      assert Installed(s.world, s.handler.templates[s.handler.i]);
    }
  }

  lemma QuietStep(s: System, e: Event)
    requires Enabled(s, e) && !e.StartPass? && !e.DeleteComponent?
    requires Quiet(s.handler) && AllInstalled(s.world, s.handler.templates)
    ensures Quiet(Apply(s, e).handler) && SameSpecsAndLabels(s.world, Apply(s, e).world)
  {
    if e.Answer? { QuietAnswer(s, e.response, e.effect); }
  }

  lemma {:induction false} QuietPass(states: seq<System>, events: seq<Event>, m: nat, j: nat)
    requires Execution(states, events) && Initial(states[0]) && OnePass(states, events, m, j)
    requires AllInstalled(states[m].world, states[m + 1].handler.templates)
    ensures Quiet(states[j].handler) && SameSpecsAndLabels(states[m].world, states[j].world)
  {
    if m + 1 == j {
    } else {
      QuietPass(states, events, m, j - 1);
      TemplatesFixed(states, events, m, j - 1);
      Reachable(states, events, j - 1);
      var templates := states[j - 1].handler.templates;
      forall k | 0 <= k < |templates| ensures Installed(states[j - 1].world, templates[k]) {
        assert Installed(states[m].world, templates[k]);
      }
      QuietStep(states[j - 1], events[j - 1]);
    }
  }

  /**
    Convergence. After one successful pass over distinctly named templates, begun at step `i` and over at step `m`,
    every template has a stored component with an equal spec. A second pass with the same templates, begun at step
    `m`, creates nothing, writes no spec or label and starts no run: at every later step `j` of it the specs and
    labels are those of step `m`, and every call it makes is a read or a status write.
   */
  lemma Convergence(states: seq<System>, events: seq<Event>, i: nat, m: nat, j: nat)
    requires Execution(states, events) && Initial(states[0]) && OnePass(states, events, i, m)
    requires DistinctNames(states[i + 1].handler.templates) && states[m].handler.pc == A.Done(true)
    ensures AllInstalled(states[m].world, states[i + 1].handler.templates)
    ensures OnePass(states, events, m, j) && states[m + 1].handler.templates == states[i + 1].handler.templates ==>
              && SameSpecsAndLabels(states[m].world, states[j].world)
              && (j < |events| && events[j].Answer? ==> OnlyReadsAndStatus(A.Requested(states[j].handler)))
  {
    PassProgresses(states, events, i, m);
    TemplatesFixed(states, events, i, m);
    if OnePass(states, events, m, j) && states[m + 1].handler.templates == states[i + 1].handler.templates {
      QuietPass(states, events, m, j);
    }
  }
}
