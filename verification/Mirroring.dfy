/**
  Mirroring a run into its component, on the executions of module Controllers: what an undisturbed stretch of a pass
  leaves in the store.
 */
module Mirroring {
  import opened Conditions
  import opened Resources
  import opened Controllers
  import A = ApplicationReconcile
  import C = PassCalls
  import W = WorkflowReconcile

  /** From step `k` to step `m` nothing happens but that the pass is answered, working on the template at `i`. */
  ghost predicate Stretch(states: seq<System>, events: seq<Event>, k: nat, m: nat, i: nat) {
    && Execution(states, events) && k <= m <= |events|
    && (forall j :: k <= j < m ==> events[j].Answer?)
    && (forall j :: k <= j < m ==> states[j].handler.i == i)
  }

  /** The stretch ends with the work on the template. */
  ghost predicate WorkedOff(states: seq<System>, events: seq<Event>, k: nat, m: nat, i: nat) {
    Stretch(states, events, k, m, i) && states[m].handler.i == i + 1
  }

  /** Only the conditions of component `n`, and with them its version, have changed. */
  predicate OnlyConditions(w: World, w': World, n: string) {
    && n in w.components && n in w'.components
    && w'.components == w.components[n := w'.components[n]]
    && w'.components[n].spec == w.components[n].spec && w'.components[n].run == w.components[n].run
    && w'.runs == w.runs
  }

  lemma LaterStretch(states: seq<System>, events: seq<Event>, k: nat, m: nat, i: nat)
    requires WorkedOff(states, events, k, m, i) && k < m
    ensures WorkedOff(states, events, k + 1, m, i)
    ensures Answerable(states[k], events[k].response, events[k].effect)
    ensures states[k + 1] == Answered(states[k], events[k].response, events[k].effect)
    ensures states[k + 1].handler.i == i ==> k + 1 < m && !states[k + 1].handler.pc.Done?
  {
    assert events[k].Answer? && Enabled(states[k], events[k]) && states[k + 1] == Apply(states[k], events[k]);
    if states[k + 1].handler.i == i {
      assert Enabled(states[k + 1], events[k + 1]) && events[k + 1].Answer?;
    }
  }

  /** One write of the mirroring, answered. */
  lemma WriteMirrored(states: seq<System>, events: seq<Event>, k: nat, m: nat, t: Template, c: Component,
                      writes: seq<ComponentCondition>)
    requires k < m < |states| && WorkedOff(states, events, k, m, states[k].handler.i)
    requires var h := states[k].handler;
             h.i < |h.templates| && h.templates[h.i] == t && h.pc == A.Mirroring(c, writes) && writes != []
    requires t.name in states[k].world.components && states[k].world.components[t.name] == c
    ensures var h, w, w' := states[k].handler, states[k].world, states[k + 1].world;
            && OnlyConditions(w, w', t.name) && w'.components[t.name].conditions == Put(c.conditions, writes[0])
            && states[k + 1].handler == A.AfterMirror(h, w'.components[t.name], writes[1..])
  {
    LaterStretch(states, events, k, m, states[k].handler.i);
  }

  /** All writes of the mirroring. */
  lemma {:induction false} WritesMirrored(states: seq<System>, events: seq<Event>, k: nat, m: nat, h: A.Handler,
                                          t: Template, c: Component, writes: seq<ComponentCondition>)
    requires h.i < |h.templates| && h.templates[h.i] == t
    requires Execution(states, events) && k <= m <= |events| && states[k].handler == A.AfterMirror(h, c, writes)
    requires if writes == [] then m == k else WorkedOff(states, events, k, m, h.i)
    requires t.name in states[k].world.components && states[k].world.components[t.name] == c
    ensures var w, w' := states[k].world, states[m].world;
            && OnlyConditions(w, w', t.name)
            && w'.components[t.name].conditions == A.AfterWrites(c.conditions, writes)
            && states[m].handler == A.Recorded(h, w'.components[t.name])
    decreases |writes|
  {
    if writes != [] {
      assert k < m;
      WriteMirrored(states, events, k, m, t, c, writes);
      LaterStretch(states, events, k, m, h.i);
      var c' := states[k + 1].world.components[t.name];
      assert A.AfterMirror(h, c', writes[1..]) == A.AfterMirror(states[k].handler, c', writes[1..]);
      WritesMirrored(states, events, k + 1, m, h, t, c', writes[1..]);
    }
  }

  /** The component says of its workflow what the run's conditions call for, and only success changes its readiness. */
  predicate Mirrors(before: Component, after: Component, cs: W.RunConditions) {
    var running, finished := Find(cs, W.RunningAction), Find(cs, W.Finished);
    var decider := if finished.Some? then finished else running;
    var workflow := Find(after.conditions, Workflow);
    && (decider.None? ==> after.conditions == before.conditions)
    && (decider.Some? ==>
          && workflow.Some?
          && workflow.value.status == (if decider.value.status == True then True else False)
          && workflow.value.reason == (if decider.value.status != True then WorkflowFailed
                                       else if finished.Some? then WorkflowSucceed else WorkflowRunning))
    && if finished.Some? && finished.value.status == True
       then Find(after.conditions, Ready).Some?
            && Find(after.conditions, Ready).value.status == False
            && Find(after.conditions, Ready).value.reason == Pending
       else Find(after.conditions, Ready) == Find(before.conditions, Ready)
  }

  lemma WritesMirror(before: Component, after: Component, run: string, cs: W.RunConditions)
    requires after.conditions == A.AfterWrites(before.conditions, A.MirrorWrites(run, cs))
    ensures Mirrors(before, after, cs)
  {
    A.MirrorOutcome(before.conditions, run, cs);
  }

  /** The pass has found the component as the template wants it, and its workflow is under way. */
  ghost predicate LooksAtWatched(s: System, t: Template, c: Component) {
    && s.handler.pc.Looking? && s.handler.i < |s.handler.templates| && s.handler.templates[s.handler.i] == t
    && t.name in s.world.components && s.world.components[t.name] == c && c.spec == t.spec
    && C.Watched(c)
  }

  lemma RunLookedUp(states: seq<System>, events: seq<Event>, k: nat, m: nat, t: Template, c: Component)
    requires k < m < |states| && WorkedOff(states, events, k, m, states[k].handler.i)
    requires LooksAtWatched(states[k], t, c)
    ensures k + 1 < m && events[k].response == A.Found(c)
    ensures states[k + 1] == states[k].(handler := states[k].handler.(pc := A.ReadingRun(c)))
    ensures A.Requested(states[k + 1].handler) == A.GetRun(c.run)
  {
    LaterStretch(states, events, k, m, states[k].handler.i);
  }

  lemma RunAnswered(states: seq<System>, events: seq<Event>, k: nat, m: nat, t: Template, c: Component)
    requires k < m < |states| && WorkedOff(states, events, k, m, states[k].handler.i)
    requires var h := states[k].handler;
             h.i < |h.templates| && h.templates[h.i] == t && h.pc == A.ReadingRun(c)
    ensures states[k + 1].world == states[k].world
    ensures events[k].response.RunFound? || events[k].response.NotFound?
    ensures events[k].response.RunFound? ==>
              && c.run.Some? && c.run.value in states[k].world.runs
              && events[k].response.conditions in states[k].world.runs[c.run.value].state.history
              && states[k + 1].handler
                   == A.AfterMirror(states[k].handler, c, A.MirrorWrites(c.run.value, events[k].response.conditions))
    ensures events[k].response.NotFound? ==> states[k + 1].handler == A.Recorded(states[k].handler, c) && m == k + 1
  {
    LaterStretch(states, events, k, m, states[k].handler.i);
  }

  /**
    A component found with its template's spec while its workflow is triggered or running: on every undisturbed
    stretch of a pass its run is looked up by the component's label, and when the pass is done with the template the
    store holds what the run's conditions call for, with the entry in the Application status.
   */
  lemma RunIsMirrored(states: seq<System>, events: seq<Event>, k: nat, m: nat, t: Template, c: Component)
    requires k < m < |states| && WorkedOff(states, events, k, m, states[k].handler.i)
    requires LooksAtWatched(states[k], t, c)
    ensures k + 1 < m && (events[k + 1].response.RunFound? || events[k + 1].response.NotFound?)
    ensures var w, w', r := states[k].world, states[m].world, events[k + 1].response;
            && OnlyConditions(w, w', t.name)
            && (r.NotFound? ==> w'.components[t.name] == c)
            && (r.RunFound? ==>
                  && c.run.Some? && c.run.value in w.runs && r.conditions in w.runs[c.run.value].state.history
                  && Mirrors(c, w'.components[t.name], r.conditions))
            && C.Enters(states[k].handler.status.components, states[m].handler.status.components, t.name,
                        w'.components[t.name])
  {
    var h := states[k].handler;
    RunLookedUp(states, events, k, m, t, c);
    LaterStretch(states, events, k, m, h.i);
    RunAnswered(states, events, k + 1, m, t, c);
    var r := events[k + 1].response;
    if r.RunFound? {
      var writes := A.MirrorWrites(c.run.value, r.conditions);
      LaterStretch(states, events, k + 1, m, h.i);
      assert writes == [] ==> states[k + 2].handler.i == h.i + 1 && m == k + 2;
      WritesMirrored(states, events, k + 2, m, states[k + 1].handler, t, c, writes);
      WritesMirror(c, states[m].world.components[t.name], c.run.value, r.conditions);
    }
    C.RecordedEnters(states[k + 1].handler, states[m].world.components[t.name]);
  }
}
