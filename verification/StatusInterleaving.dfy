/**
  The status of one component under interleaved writers.

  The Application controller (application/handler.go:303-331), the Component controller (component/handler.go:136-147)
  and an outside writer of readiness each work on a copy of the component's conditions, taken from any version ever
  stored, and store the whole list. ApplyStatus adopts the latest resource version before it writes (module
  StatusRetry), so an old copy is not refused: updates get lost. What survives any interleaving is proved here. The
  events are what the handlers' setters do to their copies (ApplicationHandler.SetComponentCondition in module
  ApplicationReconcile, ComponentHandler.SetConditionReady in module ComponentApply).
 */
module StatusInterleaving {
  import opened Wrappers
  import opened Conditions
  import opened Resources

  /** Stored condition lists, oldest first, and the copies the writers work on. */
  datatype Shared = Shared(history: seq<ComponentConditions>, copies: map<nat, ComponentConditions>)

  datatype Event =
    | Load(pid: nat, version: nat)
    | SetWorkflow(pid: nat, status: Status, reason: Reason, message: string)
    | SetReady(pid: nat, reason: Reason, message: string)
    | Write(pid: nat)
    | Leave(pid: nat)

  predicate Enabled(s: Shared, e: Event) {
    match e
    case Load(_, k) => k < |s.history|
    case SetWorkflow(pid, _, _, _) => pid in s.copies
    case SetReady(pid, _, _) => pid in s.copies
    case Write(pid) => pid in s.copies
    case Leave(pid) => pid in s.copies
  }

  function Apply(s: Shared, e: Event): Shared
    requires Enabled(s, e)
  {
    match e
    case Load(pid, k) => s.(copies := s.copies[pid := s.history[k]])
    case SetWorkflow(pid, status, reason, message) =>
      s.(copies := s.copies[pid := Put(s.copies[pid], WorkflowCondition(status, reason, message))])
    case SetReady(pid, reason, message) =>
      s.(copies := s.copies[pid := Put(s.copies[pid], ReadyCondition(reason, message))])
    case Write(pid) => s.(history := s.history + [s.copies[pid]])
    case Leave(pid) => s.(copies := s.copies - {pid})
  }

  function Latest(s: Shared): ComponentConditions {
    if s.history == [] then [] else s.history[|s.history| - 1]
  }

  predicate Initial(s: Shared) { s == Shared([[]], map[]) }

  ghost predicate Execution(states: seq<Shared>, events: seq<Event>) {
    && |states| == |events| + 1
    && forall i :: 0 <= i < |events| ==> Enabled(states[i], events[i]) && states[i + 1] == Apply(states[i], events[i])
  }

  /** At most one condition per type, and every Ready condition is True exactly when its reason is Running. */
  ghost predicate Good(cs: ComponentConditions) {
    && UniqueTypes(cs)
    && forall c :: c in cs && c.ctype.Ready? ==> (c.status.True? <==> c.reason.Running?) && !c.status.Unknown?
  }

  ghost predicate Inv(s: Shared) {
    && (forall k :: 0 <= k < |s.history| ==> Good(s.history[k]))
    && forall pid :: pid in s.copies ==> Good(s.copies[pid])
  }

  lemma PutKeepsGood(cs: ComponentConditions, c: ComponentCondition)
    requires Good(cs) && (c.ctype.Ready? ==> (c.status.True? <==> c.reason.Running?) && !c.status.Unknown?)
    ensures Good(Put(cs, c))
  {
    PutKeepsUnique(cs, c);
    EntriesAfterPut(cs, c);
  }

  lemma StepKeeps(s: Shared, e: Event)
    requires Inv(s) && Enabled(s, e)
    ensures Inv(Apply(s, e))
  {
    if e.SetWorkflow? { PutKeepsGood(s.copies[e.pid], WorkflowCondition(e.status, e.reason, e.message)); }
    if e.SetReady? { PutKeepsGood(s.copies[e.pid], ReadyCondition(e.reason, e.message)); }
  }

  lemma {:induction false} Reachable(states: seq<Shared>, events: seq<Event>, i: nat)
    requires Execution(states, events) && Initial(states[0]) && i < |states|
    ensures Inv(states[i])
  {
    if i == 0 {
    } else {
      Reachable(states, events, i - 1);
      StepKeeps(states[i - 1], events[i - 1]);
    }
  }

  /**
    Interleaved status safety: in every status ever stored, lost updates included, each type has at most one condition,
    and Ready is True exactly when its reason is Running.
   */
  lemma StatusSafety(states: seq<Shared>, events: seq<Event>, i: nat, k: nat)
    requires Execution(states, events) && Initial(states[0]) && i < |states| && k < |states[i].history|
    ensures var cs := states[i].history[k];
            && UniqueTypes(cs)
            && (Find(cs, Ready).Some? ==>
                  (Find(cs, Ready).value.status.True? <==> Find(cs, Ready).value.reason.Running?))
            && (forall c :: c in cs ==> Find(cs, c.ctype) == Some(c))
  {
    Reachable(states, events, i);
    var cs := states[i].history[k];
    assert Good(cs);
    forall c | c in cs ensures Find(cs, c.ctype) == Some(c) {
      UniqueMeansFound(cs, c);
    }
  }

  /**
    Updates do get lost: a writer of Ready puts back the Workflow condition of its own copy, whatever has been stored
    since it was taken. Module Controllers says which copies are safe to write, and module Counterexamples shows a run
    in which one is not.
   */
  lemma ReadyWriteRestoresItsCopy(s: Shared, pid: nat, reason: Reason, message: string)
    requires pid in s.copies
    ensures var s1 := Apply(s, SetReady(pid, reason, message));
            var s2 := Apply(s1, Write(pid));
            && Find(Latest(s2), Workflow) == Find(s.copies[pid], Workflow)
            && Find(Latest(s2), Ready) == Some(ReadyCondition(reason, message))
  {
    var s1 := Apply(s, SetReady(pid, reason, message));
    assert Latest(Apply(s1, Write(pid))) == Put(s.copies[pid], ReadyCondition(reason, message));
    FindAfterPut(s.copies[pid], ReadyCondition(reason, message), Workflow);
    FindAfterPut(s.copies[pid], ReadyCondition(reason, message), Ready);
  }
}
