/**
  The Component controller (internal/controller/core/component/handler.go and component_controller.go:24-42): it
  re-applies the objects saved by the previous reconcile, renders the component, saves the rendered objects and
  applies them; every apply goes in the order of the objects' kinds and stops at the first failure.

  Rendering, applying one object, patching and status writes are calls that may fail; rendering returns any objects.
 */
module ComponentApply {
  import opened Wrappers
  import opened Conditions
  import opened Resources
  import opened StableSort

  /** A rendered Kubernetes object; `spec` is None when it has no spec map, `hash` is its hash label. */
  datatype Object = Object(kind: string, name: string, spec: Option<string>, hash: Option<string>)

  /** orderMap, lines 34-59. */
  const ORDER: map<string, int> := map[
    "Namespace" := 1, "ResourceQuota" := 2, "LimitRange" := 3, "PodSecurityPolicy" := 4, "Secret" := 5,
    "ConfigMap" := 6, "StorageClass" := 7, "PersistentVolume" := 8, "PersistentVolumeClaim" := 9,
    "ServiceAccount" := 10, "CustomResourceDefinition" := 11, "ClusterRole" := 12, "ClusterRoleBinding" := 13,
    "Role" := 14, "RoleBinding" := 15, "Service" := 16, "DaemonSet" := 17, "Pod" := 18,
    "ReplicationController" := 19, "ReplicaSet" := 20, "Deployment" := 21, "StatefulSet" := 22, "Job" := 23,
    "CronJob" := 24]

  /** A kind that is not in the map ranks 0, before all others. */
  function Rank(o: Object): int { if o.kind in ORDER then ORDER[o.kind] else 0 }

  /** The kinds in the order in which their objects are applied; all other kinds come before them. */
  const KINDS: seq<string> := [
    "Namespace", "ResourceQuota", "LimitRange", "PodSecurityPolicy", "Secret", "ConfigMap", "StorageClass",
    "PersistentVolume", "PersistentVolumeClaim", "ServiceAccount", "CustomResourceDefinition", "ClusterRole",
    "ClusterRoleBinding", "Role", "RoleBinding", "Service", "DaemonSet", "Pod", "ReplicationController", "ReplicaSet",
    "Deployment", "StatefulSet", "Job", "CronJob"]

  lemma KindsInOrder(o: Object)
    ensures forall i :: 0 <= i < |KINDS| && o.kind == KINDS[i] ==> Rank(o) == i + 1
    ensures o.kind !in KINDS ==> Rank(o) == 0
  {}

  predicate RankLe(a: Object, b: Object) { Rank(a) <= Rank(b) }

  /** The order in which a set of objects is applied. */
  function InOrder(objects: seq<Object>): seq<Object> { Sorted(RankLe, objects) }

  /**
    The apply order is a permutation of the objects, non-decreasing in rank, keeping the relative order within a
    rank; and it is the only sequence like that.
   */
  lemma ApplyOrder(objects: seq<Object>)
    ensures |InOrder(objects)| == |objects| && multiset(InOrder(objects)) == multiset(objects)
    ensures forall i, j :: 0 <= i < j < |objects| ==> Rank(InOrder(objects)[i]) <= Rank(InOrder(objects)[j])
    ensures forall x :: Class(RankLe, InOrder(objects), x) == Class(RankLe, objects, x)
    ensures forall other :: StablySorts(RankLe, objects, other) ==> other == InOrder(objects)
  {
    SortedIsStable(RankLe, objects);
    StableSortingPermutes(RankLe, objects, InOrder(objects));
    assert |InOrder(objects)| == |multiset(InOrder(objects))| == |multiset(objects)| == |objects|;
    assert Ordered(RankLe, InOrder(objects));
    forall other | StablySorts(RankLe, objects, other) ensures other == InOrder(objects) {
      StableSortingIsUnique(RankLe, objects, other, InOrder(objects));
    }
  }

  function Flatten(sets: seq<seq<Object>>): seq<Object> {
    if sets == [] then [] else Flatten(sets[..|sets| - 1]) + sets[|sets| - 1]
  }

  /** Flattening keeps every object of every set, in order. */
  lemma {:induction false} FlattenConcat(a: seq<seq<Object>>, b: seq<seq<Object>>)
    ensures Flatten(a + b) == Flatten(a) + Flatten(b)
    ensures forall set1 :: Flatten([set1]) == set1
  {
    forall set1 ensures Flatten([set1]) == set1 {
      assert [set1][..0] == [];
    }
    if b == [] {
      assert a + b == a;
    } else {
      FlattenConcat(a, b[..|b| - 1]);
      assert (a + b)[..|a + b| - 1] == a + b[..|b| - 1];
    }
  }

  // ---------------------------------------------------------------------------------------------------------------
  // The cluster
  // ---------------------------------------------------------------------------------------------------------------

  /** The apply sets kept in the component's annotation: none, undecodable, or decoded. */
  datatype Saved = Nothing | Corrupt | Sets(sets: seq<seq<Object>>)

  /** One ApplyObject call and whether it succeeded. */
  datatype Attempt = Attempt(resource: Object, ok: bool)

  /** One status write of the component and whether it succeeded. */
  datatype StatusWrite = StatusWrite(conditions: ComponentConditions, ok: bool)

  /** The n-th call to the cluster succeeds iff script[n]; calls past the script fail. */
  class Cluster {
    const script: seq<bool>
    var calls: nat
    var attempts: seq<Attempt>
    var writes: seq<StatusWrite>
    var status: ComponentConditions
    var saved: Saved

    constructor (script: seq<bool>, status: ComponentConditions, saved: Saved)
      ensures this.script == script && calls == 0 && attempts == [] && writes == []
      ensures this.status == status && this.saved == saved
    {
      this.script := script;
      this.calls := 0;
      this.attempts := [];
      this.writes := [];
      this.status := status;
      this.saved := saved;
    }

    method Ask() returns (ok: bool)
      modifies this`calls
      ensures calls == old(calls) + 1 && ok == (old(calls) < |script| && script[old(calls)])
    {
      ok := calls < |script| && script[calls];
      calls := calls + 1;
    }

    method ApplyObject(o: Object) returns (ok: bool)
      modifies this`calls, this`attempts
      ensures attempts == old(attempts) + [Attempt(o, ok)]
    {
      ok := Ask();
      attempts := attempts + [Attempt(o, ok)];
    }

    method ApplyStatus(conditions: ComponentConditions) returns (ok: bool)
      modifies this`calls, this`status, this`writes
      ensures status == if ok then conditions else old(status)
      ensures writes == old(writes) + [StatusWrite(conditions, ok)]
    {
      ok := Ask();
      writes := writes + [StatusWrite(conditions, ok)];
      if ok { status := conditions; }
    }

    method PatchAnnotation(sets: seq<seq<Object>>) returns (ok: bool)
      modifies this`calls, this`saved
      ensures saved == if ok then Sets(sets) else old(saved)
    {
      ok := Ask();
      if ok { saved := Sets(sets); }
    }
  }

  function Successes(objects: seq<Object>): seq<Attempt> {
    seq(|objects|, i requires 0 <= i < |objects| => Attempt(objects[i], true))
  }

  /** Applying `objects` in sequence: the first `count` of them succeeded, and the next one failed unless `ok`. */
  function Applied(objects: seq<Object>, count: nat, ok: bool): seq<Attempt>
    requires count <= |objects| && (ok <==> count == |objects|)
  {
    Successes(objects[..count]) + if ok then [] else [Attempt(objects[count], false)]
  }

  /**
    The calls made follow the plan: each is for the object due, none is skipped or repeated, and only the last one may
    have failed.
   */
  ghost predicate Follows(made: seq<Attempt>, plan: seq<Object>) {
    && |made| <= |plan|
    && forall i :: 0 <= i < |made| ==> made[i].resource == plan[i] && (i < |made| - 1 ==> made[i].ok)
  }

  /** Between two call logs, calls following the plan were made. */
  ghost predicate Progressed(before: seq<Attempt>, after: seq<Attempt>, plan: seq<Object>) {
    before <= after && Follows(after[|before|..], plan)
  }

  /** Between two call logs, the whole plan was carried out. */
  ghost predicate CarriedOut(before: seq<Attempt>, after: seq<Attempt>, plan: seq<Object>) {
    after == before + Successes(plan)
  }

  /** Some object was applied last, and this failed. */
  predicate LastFailed(before: seq<Attempt>, after: seq<Attempt>) {
    |after| > |before| && !after[|after| - 1].ok
  }

  lemma NothingDone(before: seq<Attempt>, plan: seq<Object>)
    ensures Progressed(before, before, plan)
    ensures plan == [] ==> CarriedOut(before, before, plan)
  {}

  /** One more attempt. */
  lemma NextAttempt(before: seq<Attempt>, objects: seq<Object>, i: nat)
    requires i < |objects|
    ensures before + Successes(objects[..i]) + [Attempt(objects[i], true)] == before + Successes(objects[..i + 1])
    ensures before + Successes(objects[..i]) + [Attempt(objects[i], false)] == before + Applied(objects, i, false)
  {
    assert Successes(objects[..i + 1]) == Successes(objects[..i]) + [Attempt(objects[i], true)];
  }

  lemma AppliedProgressed(before: seq<Attempt>, after: seq<Attempt>, objects: seq<Object>, count: nat, ok: bool)
    requires count <= |objects| && (ok <==> count == |objects|) && after == before + Applied(objects, count, ok)
    ensures Progressed(before, after, objects)
    ensures ok ==> CarriedOut(before, after, objects)
  {
    assert after[|before|..] == Applied(objects, count, ok);
    assert objects[..|objects|] == objects;
  }

  /** A finished first phase followed by a second phase. */
  lemma PhasesProgressed(a: seq<Attempt>, b: seq<Attempt>, c: seq<Attempt>, first: seq<Object>, second: seq<Object>)
    requires CarriedOut(a, b, first) && Progressed(b, c, second)
    ensures Progressed(a, c, first + second)
    ensures CarriedOut(b, c, second) ==> CarriedOut(a, c, first + second)
  {
    assert c[|a|..] == Successes(first) + c[|b|..];
    assert Successes(first + second) == Successes(first) + Successes(second);
  }

  lemma PhasesFailed(a: seq<Attempt>, b: seq<Attempt>, c: seq<Attempt>, first: seq<Object>)
    requires CarriedOut(a, b, first) && b <= c
    ensures LastFailed(a, c) <==> LastFailed(b, c)
  {}

  lemma FirstPhaseProgressed(a: seq<Attempt>, b: seq<Attempt>, first: seq<Object>, second: seq<Object>)
    requires Progressed(a, b, first)
    ensures Progressed(a, b, first + second)
  {}

  datatype Outcome = Success | Error | Panic

  /** The hash label added to a rendered object. */
  function WithHash(hash: string -> string, o: Object): Object {
    o.(hash := if o.spec.Some? then Some(hash(o.spec.value)) else None)
  }

  function HashObjects(hash: string -> string, objects: seq<Object>): seq<Object> {
    seq(|objects|, i requires 0 <= i < |objects| => WithHash(hash, objects[i]))
  }

  function HashSets(hash: string -> string, sets: seq<seq<Object>>): seq<seq<Object>> {
    seq(|sets|, i requires 0 <= i < |sets| => HashObjects(hash, sets[i]))
  }

  /** Every object has a spec map; without one the type assertion of line 96 panics. */
  predicate AllHaveSpec(sets: seq<seq<Object>>) {
    forall i, j :: 0 <= i < |sets| && 0 <= j < |sets[i]| ==> sets[i][j].spec.Some?
  }

  /** Each rendered object gets the hash of its spec as label; nothing else of it changes. */
  lemma RenderedAreLabelled(hash: string -> string, sets: seq<seq<Object>>, i: nat, j: nat)
    requires AllHaveSpec(sets) && i < |sets| && j < |sets[i]|
    ensures |HashSets(hash, sets)| == |sets| && |HashSets(hash, sets)[i]| == |sets[i]|
    ensures var o := sets[i][j]; HashSets(hash, sets)[i][j] == Object(o.kind, o.name, o.spec, Some(hash(o.spec.value)))
  {}

  lemma HashSetsNext(hash: string -> string, sets: seq<seq<Object>>, i: nat)
    requires i < |sets|
    ensures Flatten(HashSets(hash, sets[..i + 1])) == Flatten(HashSets(hash, sets[..i])) + HashObjects(hash, sets[i])
  {
    assert HashSets(hash, sets[..i + 1])[..i] == HashSets(hash, sets[..i]);
  }

  /** The objects due in the first phase: the saved ones, in order. */
  function SavedObjects(saved: Saved): seq<Object> {
    if saved.Sets? then InOrder(Flatten(saved.sets)) else []
  }

  /** The objects due in the second phase: the rendered ones with their hashes, in order. */
  function RenderedObjects(hash: string -> string, rendered: Option<seq<seq<Object>>>): seq<Object> {
    if rendered.Some? then InOrder(Flatten(HashSets(hash, rendered.value))) else []
  }

  lemma SortedEmpty()
    ensures InOrder([]) == []
  {}

  // ---------------------------------------------------------------------------------------------------------------
  // The status writes of a reconcile
  // ---------------------------------------------------------------------------------------------------------------

  /** The Ready conditions a reconcile wants stored, as lines 158, 162, 167 and 182 give them. */
  const RENDERING := Condition(Ready, False, Rendering, "Component is being rendered")
  const RENDERING_FAILED := Condition(Ready, False, RenderingFailed, "Component failed to render")
  const RENDERING_SUCCEEDED := Condition(Ready, False, RenderingSucceed, "Component rendered successfully")
  const DEPLOYING_FAILED := Condition(Ready, False, DeployingFailed, "Component failed to deploy")

  /** What a reconcile has told so far: its local conditions, the log of status writes, and the stored conditions. */
  datatype Told = Told(conditions: ComponentConditions, writes: seq<StatusWrite>, status: ComponentConditions)

  /** Nothing has been lost so far: the local conditions are the stored ones. */
  function ToldFrom(status: ComponentConditions, writes: seq<StatusWrite>): Told { Told(status, writes, status) }

  /** One more Ready condition is told, and the write of it, if there is one, succeeds or not. */
  function Tell(s: Told, k: ComponentCondition, ok: bool): Told {
    if Find(s.conditions, Ready) == Some(k) then s
    else
      var conditions := Put(s.conditions, k);
      Told(conditions, s.writes + [StatusWrite(conditions, ok)], if ok then conditions else s.status)
  }

  /**
    Where a reconcile ends: the component is gone or cannot be read; the saved objects cannot be used, or one of them
    cannot be applied; the beginning of the rendering cannot be stored; rendering panics or fails; its success cannot
    be stored; an object cannot be applied; or everything is done.
   */
  datatype Stage =
    Gone | Unread | SavedUnusable | SavedFailed | Unmarked | RenderPanicked | RenderFailed | Unconfirmed | ApplyFailed
    | Complete

  /** What a reconcile that ends there has told; `last` says whether its last write succeeded. */
  function ToldAt(s: Told, stage: Stage, last: bool): Told {
    match stage
    case Gone => s
    case Unread => s
    case SavedUnusable => s
    case SavedFailed => Tell(s, DEPLOYING_FAILED, last)
    case Unmarked => Tell(s, RENDERING, last)
    case RenderPanicked => Tell(s, RENDERING, true)
    case RenderFailed => Tell(Tell(s, RENDERING, true), RENDERING_FAILED, last)
    case Unconfirmed => Tell(Tell(s, RENDERING, true), RENDERING_SUCCEEDED, last)
    case ApplyFailed => Tell(Tell(Tell(s, RENDERING, true), RENDERING_SUCCEEDED, true), DEPLOYING_FAILED, last)
    case Complete => Tell(Tell(s, RENDERING, true), RENDERING_SUCCEEDED, true)
  }

  function OutcomeOf(stage: Stage): Outcome {
    match stage
    case Gone => Success
    case Complete => Success
    case RenderPanicked => Panic
    case _ => Error
  }

  /** The reconcile got to the end of its rendering, and saved what was rendered. */
  predicate HasRendered(stage: Stage) { stage.Unconfirmed? || stage.ApplyFailed? || stage.Complete? }

  /** The reconcile ends there because a status write fails. */
  predicate LosesWrite(stage: Stage) { stage.Unmarked? || stage.Unconfirmed? }

  /** The reasons of the Ready conditions told up to there, in order. */
  function ReasonsAt(stage: Stage): seq<Reason> {
    match stage
    case Gone => []
    case Unread => []
    case SavedUnusable => []
    case SavedFailed => [DeployingFailed]
    case Unmarked => [Rendering]
    case RenderPanicked => [Rendering]
    case RenderFailed => [Rendering, RenderingFailed]
    case Unconfirmed => [Rendering, RenderingSucceed]
    case ApplyFailed => [Rendering, RenderingSucceed, DeployingFailed]
    case Complete => [Rendering, RenderingSucceed]
  }

  /** The Ready condition says, with status False, that reason. */
  predicate Says(cs: ComponentConditions, reason: Reason) {
    var k := Find(cs, Ready);
    k.Some? && k.value.status == False && k.value.reason == reason
  }

  /** The writes say the last of these reasons, in order. */
  predicate SayInOrder(made: seq<StatusWrite>, reasons: seq<Reason>) {
    && |made| <= |reasons|
    && forall i :: 0 <= i < |made| ==> Says(made[i].conditions, reasons[|reasons| - |made| + i])
  }

  predicate LeaveWorkflow(status: ComponentConditions, made: seq<StatusWrite>) {
    forall i :: 0 <= i < |made| ==> Find(made[i].conditions, Workflow) == Find(status, Workflow)
  }

  predicate OnlyLastFails(made: seq<StatusWrite>) { forall i :: 0 <= i < |made| - 1 ==> made[i].ok }

  /** The status stored after these writes: that of the last one that did not fail. */
  function StoredAfter(status: ComponentConditions, made: seq<StatusWrite>): ComponentConditions
  {
    if made == [] then status
    else if made[|made| - 1].ok then made[|made| - 1].conditions
    else if |made| == 1 then status else made[|made| - 2].conditions
  }

  /** `made` are the writes by which `after` comes from `before` when conditions with these reasons are told. */
  predicate Tells(before: Told, after: Told, made: seq<StatusWrite>, reasons: seq<Reason>) {
    && after.writes == before.writes + made
    && (|made| == |reasons| || (|made| + 1 == |reasons| && Says(before.status, reasons[0])))
    && SayInOrder(made, reasons) && LeaveWorkflow(before.status, made) && OnlyLastFails(made)
    && after.status == StoredAfter(before.status, made)
  }

  /** No write has failed so far: the local conditions are the stored ones, and say that reason. */
  predicate Smooth(before: Told, after: Told, made: seq<StatusWrite>, reason: Reason) {
    && after.conditions == after.status && Says(after.conditions, reason)
    && Find(after.conditions, Workflow) == Find(before.status, Workflow)
    && (made != [] ==> made[|made| - 1].ok)
  }

  lemma TellFacts(s: Told, k: ComponentCondition, ok: bool)
    requires k.ctype.Ready? && k.status.False?
    ensures Says(Tell(s, k, ok).conditions, k.reason)
    ensures Find(Tell(s, k, ok).conditions, Workflow) == Find(s.conditions, Workflow)
  {
    FindAfterPut(s.conditions, k, Ready);
    FindAfterPut(s.conditions, k, Workflow);
  }

  /** Telling a first condition. */
  lemma TellsFirst(s: Told, k: ComponentCondition, ok: bool) returns (made: seq<StatusWrite>)
    requires k.ctype.Ready? && k.status.False? && s.conditions == s.status
    ensures Tells(s, Tell(s, k, ok), made, [k.reason])
    ensures ok ==> Smooth(s, Tell(s, k, ok), made, k.reason)
  {
    TellFacts(s, k, ok);
    var t := Tell(s, k, ok);
    made := if t.writes == s.writes then [] else [StatusWrite(t.conditions, ok)];
  }

  /** One more write for a list of reasons. */
  lemma OneMoreSays(made: seq<StatusWrite>, reasons: seq<Reason>, w: StatusWrite, reason: Reason)
    requires SayInOrder(made, reasons) && Says(w.conditions, reason)
    ensures SayInOrder(made + [w], reasons + [reason])
  {
    var all, rs := made + [w], reasons + [reason];
    forall i | 0 <= i < |all| ensures Says(all[i].conditions, rs[|rs| - |all| + i]) {
      if i < |made| {
        assert all[i] == made[i] && rs[|rs| - |all| + i] == reasons[|reasons| - |made| + i];
      } else {
        assert all[i] == w && rs[|rs| - |all| + i] == reason;
      }
    }
  }

  lemma OneMoreLeaves(status: ComponentConditions, made: seq<StatusWrite>, w: StatusWrite)
    requires LeaveWorkflow(status, made) && Find(w.conditions, Workflow) == Find(status, Workflow)
    ensures LeaveWorkflow(status, made + [w])
  {}

  lemma OneMoreStores(status: ComponentConditions, made: seq<StatusWrite>, w: StatusWrite)
    requires OnlyLastFails(made) && (made != [] ==> made[|made| - 1].ok)
    ensures OnlyLastFails(made + [w])
    ensures StoredAfter(status, made + [w]) == if w.ok then w.conditions else StoredAfter(status, made)
  {
    assert forall i :: 0 <= i < |made| ==> (made + [w])[i] == made[i] && made[i].ok;
  }

  /** Telling another condition, with another reason than the one before. */
  lemma TellsNext(s: Told, t: Told, made: seq<StatusWrite>, reasons: seq<Reason>, k: ComponentCondition, ok: bool)
    returns (all: seq<StatusWrite>)
    requires reasons != [] && Tells(s, t, made, reasons) && Smooth(s, t, made, reasons[|reasons| - 1])
    requires k.ctype.Ready? && k.status.False? && k.reason != reasons[|reasons| - 1]
    ensures Tells(s, Tell(t, k, ok), all, reasons + [k.reason])
    ensures ok ==> Smooth(s, Tell(t, k, ok), all, k.reason)
  {
    TellFacts(t, k, ok);
    var w := StatusWrite(Put(t.conditions, k), ok);
    all := made + [w];
    assert SayInOrder(all, reasons + [k.reason]) by { OneMoreSays(made, reasons, w, k.reason); }
    assert LeaveWorkflow(s.status, all) by { OneMoreLeaves(s.status, made, w); }
    OneMoreStores(s.status, made, w);
    assert t.writes + [w] == s.writes + all;
  }

  /** A condition told to `t`, after the ones with these reasons; `told` is the list of all. */
  lemma ThenTells(s: Told, t: Told, made: seq<StatusWrite>, reasons: seq<Reason>, k: ComponentCondition, ok: bool,
                  told: seq<Reason>) returns (all: seq<StatusWrite>)
    requires reasons != [] && Tells(s, t, made, reasons) && Smooth(s, t, made, reasons[|reasons| - 1])
    requires k.ctype.Ready? && k.status.False? && k.reason != reasons[|reasons| - 1] && told == reasons + [k.reason]
    ensures Tells(s, Tell(t, k, ok), all, told) && (ok ==> Smooth(s, Tell(t, k, ok), all, k.reason))
  {
    all := TellsNext(s, t, made, reasons, k, ok);
  }

  lemma FailureTells(s: Told, last: bool) returns (made: seq<StatusWrite>)
    requires s.conditions == s.status
    ensures Tells(s, ToldAt(s, RenderFailed, last), made, ReasonsAt(RenderFailed))
  {
    made := TellsFirst(s, RENDERING, true);
    made := ThenTells(s, Tell(s, RENDERING, true), made, [Rendering], RENDERING_FAILED, last, ReasonsAt(RenderFailed));
  }

  lemma SuccessTells(s: Told, last: bool) returns (made: seq<StatusWrite>)
    requires s.conditions == s.status
    ensures Tells(s, ToldAt(s, Unconfirmed, last), made, ReasonsAt(Unconfirmed))
    ensures last ==> Smooth(s, ToldAt(s, Unconfirmed, last), made, RenderingSucceed)
  {
    made := TellsFirst(s, RENDERING, true);
    made := ThenTells(s, Tell(s, RENDERING, true), made, [Rendering], RENDERING_SUCCEEDED, last,
                      ReasonsAt(Unconfirmed));
  }

  lemma ApplyFailureTells(s: Told, last: bool) returns (made: seq<StatusWrite>)
    requires s.conditions == s.status
    ensures Tells(s, ToldAt(s, ApplyFailed, last), made, ReasonsAt(ApplyFailed))
  {
    made := SuccessTells(s, true);
    made := ThenTells(s, ToldAt(s, Unconfirmed, true), made, ReasonsAt(Unconfirmed), DEPLOYING_FAILED, last,
                      ReasonsAt(ApplyFailed));
  }

  /**
    The status writes of a reconcile: the Ready conditions for where it ends, in order and each with status False; only
    the first can be missing, when it is stored already. Each write leaves the Workflow condition alone. Only the last
    can fail, and the stored status is that of the last one that did not.
   */
  lemma StatusWrites(status: ComponentConditions, writes: seq<StatusWrite>, stage: Stage, last: bool)
    returns (made: seq<StatusWrite>)
    ensures Tells(ToldFrom(status, writes), ToldAt(ToldFrom(status, writes), stage, last), made, ReasonsAt(stage))
  {
    var s := ToldFrom(status, writes);
    match stage {
      case SavedFailed => made := TellsFirst(s, DEPLOYING_FAILED, last);
      case Unmarked => made := TellsFirst(s, RENDERING, last);
      case RenderPanicked => made := TellsFirst(s, RENDERING, true);
      case RenderFailed => made := FailureTells(s, last);
      case Unconfirmed => made := SuccessTells(s, last);
      case ApplyFailed => made := ApplyFailureTells(s, last);
      case Complete => made := SuccessTells(s, true);
      case _ => made := [];
    }
  }

  lemma SaysNotRunning(made: seq<StatusWrite>, reasons: seq<Reason>, j: nat)
    requires SayInOrder(made, reasons) && j < |made| && Running !in reasons
    ensures var k := Find(made[j].conditions, Ready); k.Some? && k.value.status == False && k.value.reason != Running
  {
    assert Says(made[j].conditions, reasons[|reasons| - |made| + j]);
  }

  /** No reconcile ever writes that the component is ready. */
  lemma NeverSaysRunning(status: ComponentConditions, writes: seq<StatusWrite>, stage: Stage, last: bool, i: nat)
    requires |writes| <= i < |ToldAt(ToldFrom(status, writes), stage, last).writes|
    ensures var k := Find(ToldAt(ToldFrom(status, writes), stage, last).writes[i].conditions, Ready);
            k.Some? && k.value.status == False && k.value.reason != Running
  {
    var told := ToldAt(ToldFrom(status, writes), stage, last);
    var made := StatusWrites(status, writes, stage, last);
    assert told.writes == writes + made && SayInOrder(made, ReasonsAt(stage));
    assert told.writes[i] == made[i - |writes|];
    SaysNotRunning(made, ReasonsAt(stage), i - |writes|);
  }

  /** Whether the last reason told is the one stored. */
  lemma LastIsStored(s: Told, t: Told, made: seq<StatusWrite>, reasons: seq<Reason>)
    requires Tells(s, t, made, reasons) && reasons != []
    requires |reasons| > 1 ==> reasons[|reasons| - 2] != reasons[|reasons| - 1]
    ensures Says(t.status, reasons[|reasons| - 1]) <==>
            made == [] || made[|made| - 1].ok || (|made| == 1 && Says(s.status, reasons[|reasons| - 1]))
  {
    if |made| > 1 { assert Says(made[|made| - 2].conditions, reasons[|reasons| - 2]); }
    if made != [] { assert Says(made[|made| - 1].conditions, reasons[|reasons| - 1]); }
  }

  /**
    Where objects could not be applied, DeployingFailed is what is stored, unless the write of it failed; then it is
    stored only if it was before and nothing else has been written since.
   */
  lemma DeployingFailureIsStored(status: ComponentConditions, writes: seq<StatusWrite>, stage: Stage, last: bool)
    requires stage.SavedFailed? || stage.ApplyFailed?
    ensures var told := ToldAt(ToldFrom(status, writes), stage, last);
            Says(told.status, DeployingFailed) <==>
              || |told.writes| == |writes| || told.writes[|told.writes| - 1].ok
              || (|told.writes| == |writes| + 1 && Says(status, DeployingFailed))
  {
    var made := StatusWrites(status, writes, stage, last);
    LastIsStored(ToldFrom(status, writes), ToldAt(ToldFrom(status, writes), stage, last), made, ReasonsAt(stage));
  }

  /** Where everything was done RenderingSucceed is stored. */
  lemma SuccessIsStored(status: ComponentConditions, writes: seq<StatusWrite>, last: bool)
    ensures Says(ToldAt(ToldFrom(status, writes), Complete, last).status, RenderingSucceed)
  {
    var made := SuccessTells(ToldFrom(status, writes), true);
  }

  class ComponentHandler {
    const cluster: Cluster
    const hash: string -> string
    const hasAnnotations: bool               // the component's annotation map is not nil
    const rendered: Option<seq<seq<Object>>> // what rendering returns; None when it fails
    var conditions: ComponentConditions
    var applySet: seq<Object>

    constructor (cluster: Cluster, hash: string -> string, hasAnnotations: bool, rendered: Option<seq<seq<Object>>>)
      ensures this.cluster == cluster && this.hash == hash && this.hasAnnotations == hasAnnotations
      ensures this.rendered == rendered && applySet == [] && conditions == cluster.status
    {
      this.cluster := cluster;
      this.hash := hash;
      this.hasAnnotations := hasAnnotations;
      this.rendered := rendered;
      this.conditions := cluster.status;
      this.applySet := [];
    }

    ghost function Now(): Told
      reads this, cluster
    {
      Told(conditions, cluster.writes, cluster.status)
    }

    /** setConditionReady, lines 136-147: a condition that already reads like this is not written again. */
    method SetConditionReady(reason: Reason, message: string) returns (ok: bool)
      modifies this`conditions, cluster`calls, cluster`status, cluster`writes
      ensures var k := Condition(Ready, if reason == Reason.Running then True else False, reason, message);
              && Now() == Tell(old(Now()), k, ok)
              && (Find(old(conditions), Ready) == Some(k) ==> ok && cluster.calls == old(cluster.calls))
    {
      var status := if reason.Running? then True else False;
      var index, found := ContainsCondition(conditions, Ready);
      if found && conditions[index].status == status && conditions[index].reason == reason
         && conditions[index].message == message {
        return true;
      }
      conditions := SetCondition(conditions, Ready, status, reason, message);
      ok := cluster.ApplyStatus(conditions);
    }

    /**
      applyResources, lines 175-191: the apply set is sorted in place and applied object by object. A failure at
      position `count` means that exactly the first `count` objects were applied; the set is cleared on success only.
     */
    method ApplyResources() returns (ok: bool, ghost count: nat, ghost last: bool)
      modifies this`applySet, this`conditions, cluster`calls, cluster`attempts, cluster`writes, cluster`status
      ensures var sorted := InOrder(old(applySet));
              && count <= |sorted| && (ok <==> count == |sorted|)
              && cluster.attempts == old(cluster.attempts) + Applied(sorted, count, ok)
              && applySet == (if ok then [] else sorted)
              && Progressed(old(cluster.attempts), cluster.attempts, sorted)
              && (ok ==> CarriedOut(old(cluster.attempts), cluster.attempts, sorted))
      ensures ok <==> !LastFailed(old(cluster.attempts), cluster.attempts)
      ensures Now() == if ok then old(Now()) else Tell(old(Now()), DEPLOYING_FAILED, last)
    {
      applySet := InOrder(applySet);
      var objects := applySet;
      var i := 0;
      ghost var before := cluster.attempts;
      while i < |objects|
        invariant 0 <= i <= |objects| && applySet == objects
        invariant cluster.attempts == before + Successes(objects[..i])
        invariant Now() == old(Now())
      {
        NextAttempt(before, objects, i);
        var applied := cluster.ApplyObject(objects[i]);
        if !applied {
          AppliedProgressed(before, cluster.attempts, objects, i, false);
          last := SetConditionReady(DeployingFailed, "Component failed to deploy");
          return false, i, last;
        }
        i := i + 1;
      }
      AppliedProgressed(before, cluster.attempts, objects, i, true);
      applySet := [];
      return true, i, true;
    }

    /** Lines 214-216: the sets are appended to the apply set. */
    method AddSets(sets: seq<seq<Object>>)
      modifies this`applySet
      ensures applySet == old(applySet) + Flatten(sets)
    {
      var i := 0;
      while i < |sets|
        invariant 0 <= i <= |sets|
        invariant applySet == old(applySet) + Flatten(sets[..i])
      {
        assert sets[..i + 1][..i] == sets[..i];
        applySet := applySet + sets[i];
        i := i + 1;
      }
      assert sets[..i] == sets;
    }

    /** ReconcileDeployedObjects, lines 193-230: apply what the previous reconcile saved. */
    method ReconcileDeployedObjects() returns (ok: bool, ghost stage: Stage, ghost last: bool)
      requires applySet == []
      modifies this`applySet, this`conditions, cluster`calls, cluster`attempts, cluster`writes, cluster`status
      ensures ok ==> applySet == []
      ensures ok ==> !old(cluster.saved).Corrupt?
      ensures Progressed(old(cluster.attempts), cluster.attempts, SavedObjects(old(cluster.saved)))
      ensures ok ==> CarriedOut(old(cluster.attempts), cluster.attempts, SavedObjects(old(cluster.saved)))
      ensures ok ==> Now() == old(Now())
      ensures !ok ==> (stage.SavedUnusable? || stage.SavedFailed?) && Now() == ToldAt(old(Now()), stage, last)
      ensures LastFailed(old(cluster.attempts), cluster.attempts) <==> !ok && stage.SavedFailed?
      ensures cluster.saved.Nothing? ==> ok
    {
      stage, last := SavedUnusable, true;
      ghost var before := cluster.attempts;
      NothingDone(before, SavedObjects(cluster.saved));
      match cluster.saved {
        case Corrupt => return false, stage, last;
        case Nothing =>
        case Sets(sets) =>
          AddSets(sets);
          assert applySet == Flatten(sets);
      }
      if applySet == [] {
        SortedEmpty();
        return true, stage, last;
      }
      ok := cluster.Ask(); // module.NewManager
      if !ok { return; }
      ghost var count;
      ok, count, last := ApplyResources();
      stage := SavedFailed;
    }

    /** The inner loop, lines 95-100: every object of one set gets its hash label and joins the apply set. */
    method AddRendered(objects: seq<Object>) returns (panics: bool)
      modifies this`applySet
      ensures !panics ==> forall l :: 0 <= l < |objects| ==> objects[l].spec.Some?
      ensures !panics ==> applySet == old(applySet) + HashObjects(hash, objects)
      ensures panics ==> exists l :: 0 <= l < |objects| && objects[l].spec.None?
    {
      var j := 0;
      while j < |objects|
        invariant 0 <= j <= |objects|
        invariant forall l :: 0 <= l < j ==> objects[l].spec.Some?
        invariant applySet == old(applySet) + HashObjects(hash, objects[..j])
      {
        if objects[j].spec.None? { return true; }
        assert HashObjects(hash, objects[..j + 1])
            == HashObjects(hash, objects[..j]) + [WithHash(hash, objects[j])];
        applySet := applySet + [WithHash(hash, objects[j])];
        j := j + 1;
      }
      assert objects[..j] == objects;
      return false;
    }

    /** renderComponent, lines 70-134: label the rendered objects, append them to the apply set, save the sets. */
    method Render() returns (outcome: Outcome)
      modifies this`applySet, cluster`calls, cluster`saved
      ensures outcome.Success? ==>
                && rendered.Some? && AllHaveSpec(rendered.value) && hasAnnotations
                && applySet == old(applySet) + Flatten(HashSets(hash, rendered.value))
                && cluster.saved == Sets(HashSets(hash, rendered.value))
      ensures !outcome.Success? ==> cluster.saved == old(cluster.saved)
      ensures outcome.Panic? <==> rendered.Some? && (!AllHaveSpec(rendered.value) || !hasAnnotations)
    {
      if rendered.None? { return Error; }
      var sets: seq<seq<Object>> := rendered.value;
      var i := 0;
      while i < |sets|
        invariant 0 <= i <= |sets|
        invariant AllHaveSpec(sets[..i])
        invariant applySet == old(applySet) + Flatten(HashSets(hash, sets[..i]))
        invariant cluster.saved == old(cluster.saved)
      {
        var panics := AddRendered(sets[i]);
        if panics { return Panic; }
        HashSetsNext(hash, sets, i);
        i := i + 1;
      }
      assert sets[..i] == sets;
      if !hasAnnotations { return Panic; } // line 120 writes to a nil map
      var ok := cluster.PatchAnnotation(HashSets(hash, sets));
      return if ok then Success else Error;
    }

    /** Lines 161-166: a failure to render is recorded in the component. */
    method RenderOrRecord() returns (outcome: Outcome, ghost last: bool)
      requires applySet == []
      modifies this`applySet, this`conditions, cluster`calls, cluster`saved, cluster`writes, cluster`status
      ensures outcome.Success? ==>
                && rendered.Some? && AllHaveSpec(rendered.value)
                && applySet == Flatten(HashSets(hash, rendered.value))
                && cluster.saved == Sets(HashSets(hash, rendered.value))
      ensures !outcome.Success? ==> cluster.saved == old(cluster.saved)
      ensures outcome.Panic? <==> rendered.Some? && (!AllHaveSpec(rendered.value) || !hasAnnotations)
      ensures Now() == if outcome.Error? then Tell(old(Now()), RENDERING_FAILED, last) else old(Now())
    {
      last := true;
      outcome := Render();
      if outcome.Error? {
        last := SetConditionReady(RenderingFailed, "Component failed to render");
      }
    }

    /** Lines 158-166: mark the rendering, and render. */
    method MarkAndRender() returns (outcome: Outcome, ghost stage: Stage, ghost last: bool)
      requires applySet == []
      modifies this`applySet, this`conditions, cluster`calls, cluster`saved, cluster`writes, cluster`status
      ensures outcome.Success? ==>
                && rendered.Some? && AllHaveSpec(rendered.value)
                && applySet == Flatten(HashSets(hash, rendered.value))
                && cluster.saved == Sets(HashSets(hash, rendered.value))
                && Now() == Tell(old(Now()), RENDERING, true)
      ensures !outcome.Success? ==>
                && outcome == OutcomeOf(stage) && cluster.saved == old(cluster.saved)
                && Now() == ToldAt(old(Now()), stage, last)
      ensures stage.Unmarked? || stage.RenderPanicked? || stage.RenderFailed?
      ensures stage.Unmarked? ==> !outcome.Success? && !last && Find(old(conditions), Ready) != Some(RENDERING)
      ensures outcome.Panic? <==> stage.RenderPanicked?
      ensures outcome.Panic? ==> rendered.Some? && (!AllHaveSpec(rendered.value) || !hasAnnotations)
    {
      var ok := SetConditionReady(Rendering, "Component is being rendered");
      if !ok { return Error, Unmarked, false; }
      outcome, last := RenderOrRecord();
      stage := if outcome.Panic? then RenderPanicked else RenderFailed;
    }

    /** Lines 167-169: the rendering has succeeded. */
    method Confirm() returns (ok: bool)
      modifies this`conditions, cluster`calls, cluster`writes, cluster`status
      ensures Now() == Tell(old(Now()), RENDERING_SUCCEEDED, ok)
    {
      ok := SetConditionReady(RenderingSucceed, "Component rendered successfully");
    }

    /** Lines 158-169: in addition, confirm that the rendering succeeded. */
    method Prepare() returns (outcome: Outcome, ghost stage: Stage, ghost last: bool)
      requires applySet == []
      modifies this`applySet, this`conditions, cluster`calls, cluster`saved, cluster`writes, cluster`status
      ensures outcome == OutcomeOf(stage) && Now() == ToldAt(old(Now()), stage, last)
      ensures stage.Unmarked? || stage.RenderPanicked? || stage.RenderFailed? || stage.Unconfirmed? || stage.Complete?
      ensures if HasRendered(stage)
              then rendered.Some? && AllHaveSpec(rendered.value)
                   && cluster.saved == Sets(HashSets(hash, rendered.value))
              else cluster.saved == old(cluster.saved)
      ensures stage.Complete? ==> rendered.Some? && applySet == Flatten(HashSets(hash, rendered.value))
      ensures LosesWrite(stage) ==> !last
      ensures stage.Unmarked? ==> Find(old(conditions), Ready) != Some(RENDERING)
      ensures stage.RenderPanicked? ==> rendered.Some? && (!AllHaveSpec(rendered.value) || !hasAnnotations)
    {
      outcome, stage, last := MarkAndRender();
      if outcome.Success? {
        var ok := Confirm();
        outcome, stage, last := if ok then Success else Error, if ok then Complete else Unconfirmed, ok;
      }
    }

    /** RenderComponent, lines 157-171. */
    method RenderComponent() returns (outcome: Outcome, ghost stage: Stage, ghost last: bool)
      requires applySet == []
      modifies this`applySet, this`conditions, cluster
      ensures outcome.Success? ==>
                && rendered.Some? && AllHaveSpec(rendered.value) && applySet == []
                && CarriedOut(old(cluster.attempts), cluster.attempts, RenderedObjects(hash, rendered))
                && cluster.saved == Sets(HashSets(hash, rendered.value))
      ensures Progressed(old(cluster.attempts), cluster.attempts, RenderedObjects(hash, rendered))
      ensures if HasRendered(stage)
              then rendered.Some? && AllHaveSpec(rendered.value)
                   && cluster.saved == Sets(HashSets(hash, rendered.value))
              else cluster.saved == old(cluster.saved)
      ensures outcome == OutcomeOf(stage) && Now() == ToldAt(old(Now()), stage, last)
      ensures !stage.Gone? && !stage.Unread? && !stage.SavedUnusable? && !stage.SavedFailed?
      ensures LosesWrite(stage) ==> !last
      ensures stage.Unmarked? ==> Find(old(conditions), Ready) != Some(RENDERING)
      ensures stage.RenderPanicked? ==> rendered.Some? && (!AllHaveSpec(rendered.value) || !hasAnnotations)
      ensures LastFailed(old(cluster.attempts), cluster.attempts) <==> stage.ApplyFailed?
    {
      NothingDone(cluster.attempts, RenderedObjects(hash, rendered));
      outcome, stage, last := Prepare();
      if outcome.Success? {
        var ok;
        ghost var count;
        ok, count, last := ApplyResources();
        outcome, stage := if ok then Success else Error, if ok then Complete else ApplyFailed;
      }
    }
  }

  /** The answer to the first read: the component is there, is gone, or cannot be read. */
  datatype Lookup = Present | Missing | Unreadable

  /**
    Reconcile: a component that is gone is nothing to do. Otherwise, whatever fails, the objects applied are a prefix of
    the sorted saved set followed by the sorted freshly rendered set, so nothing of the first phase enters the second;
    a successful reconcile applies all of them, and saves what was rendered.
   */
  method Reconcile(cluster: Cluster, lookup: Lookup, hash: string -> string, hasAnnotations: bool,
                   rendered: Option<seq<seq<Object>>>)
    returns (outcome: Outcome, ghost stage: Stage, ghost last: bool)
    modifies cluster
    ensures !lookup.Present? ==> outcome == (if lookup.Missing? then Success else Error) && unchanged(cluster)
    ensures lookup.Present? && outcome.Success? ==>
              && rendered.Some? && AllHaveSpec(rendered.value)
              && CarriedOut(old(cluster.attempts), cluster.attempts,
                            SavedObjects(old(cluster.saved)) + RenderedObjects(hash, rendered))
              && cluster.saved == Sets(HashSets(hash, rendered.value))
    ensures Progressed(old(cluster.attempts), cluster.attempts,
                       SavedObjects(old(cluster.saved)) + RenderedObjects(hash, rendered))
    ensures if HasRendered(stage)
            then rendered.Some? && AllHaveSpec(rendered.value)
                 && cluster.saved == Sets(HashSets(hash, rendered.value))
            else cluster.saved == old(cluster.saved)
    ensures outcome == OutcomeOf(stage)
    ensures (lookup.Missing? <==> stage.Gone?) && (lookup.Unreadable? <==> stage.Unread?)
    ensures var told := ToldAt(ToldFrom(old(cluster.status), old(cluster.writes)), stage, last);
            cluster.writes == told.writes && cluster.status == told.status
    ensures LosesWrite(stage) ==> !last
    ensures stage.Unmarked? ==> Find(old(cluster.status), Ready) != Some(RENDERING)
    ensures LastFailed(old(cluster.attempts), cluster.attempts) <==> stage.SavedFailed? || stage.ApplyFailed?
    ensures stage.RenderPanicked? ==> rendered.Some? && (!AllHaveSpec(rendered.value) || !hasAnnotations)
  {
    ghost var before, first, second := cluster.attempts, SavedObjects(cluster.saved), RenderedObjects(hash, rendered);
    NothingDone(before, first + second);
    if !lookup.Present? {
      return if lookup.Missing? then Success else Error, if lookup.Missing? then Gone else Unread, true;
    }
    var handler := new ComponentHandler(cluster, hash, hasAnnotations, rendered);
    var ok;
    ok, stage, last := handler.ReconcileDeployedObjects();
    if !ok {
      FirstPhaseProgressed(before, cluster.attempts, first, second);
      return Error, stage, last;
    }
    ghost var between := cluster.attempts;
    outcome, stage, last := handler.RenderComponent();
    PhasesProgressed(before, between, cluster.attempts, first, second);
    PhasesFailed(before, between, cluster.attempts, first);
  }
}
