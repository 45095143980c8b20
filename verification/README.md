# Verified model of the Conure controllers and of two API-server stores

Conure is a platform-as-a-service built on Kubernetes controllers. An Application lists component templates; its
controller creates and updates one Component per template, launches a WorkflowRun whenever the Source of a component
changes, and copies the state of the run back into the component. The Workflow controller starts the actions of a run
and follows their Jobs. The Component controller renders and applies the objects of a component. Beside the
controllers, the API server keeps password hashes and scoped variables. This project models that logic in Dafny and
proves what it guarantees over whole runs.

## How it is organised

| file | content |
|---|---|
| `Wrappers.dfy`, `Resources.dfy` | optional values; the custom resources |
| `Conditions.dfy` | the condition list used as a map from type to condition |
| `StatusRetry.dfy` | the optimistic retry loop around a status write, against any adversary |
| `WorkflowReconcile.dfy` | the Workflow controller: its job scan, its protocol, and its code |
| `WorkflowCalls.dfy` | its calls, read off the log: order, contents of every status write, and how it ends |
| `WorkflowRuns.dfy` | one WorkflowRun and any number of competing Workflow reconcilers |
| `WorkflowProgress.dfy` | what an undisturbed Reconcile does, and exactly when it leaves the run finished |
| `WorkflowStranded.dfy` | where the jobs of a run come from; runs that can no longer succeed, or no longer finish |
| `WorkflowOutcome.dfy` | exactly when a run can still succeed or finish, and what crashes during the launch cost |
| `ApplicationReconcile.dfy` | the Application controller: its protocol and its code |
| `PassCalls.dfy` | the calls of an Application pass, read off the log |
| `Controllers.dfy` | Application and Workflow controllers together on one store |
| `Mirroring.dfy` | what an undisturbed stretch of a pass copies from a run into its component |
| `Passes.dfy` | what sequences of Application passes achieve: run accounting, labels, convergence |
| `Counting.dfy` | what the Application status counts |
| `Counterexamples.dfy` | three executions that show what the controllers do not give |
| `StatusInterleaving.dfy` | whole-status writes of one component from old snapshots |
| `StableSort.dfy`, `ComponentApply.dfy` | stable sorting; the two apply phases of the Component controller |
| `Base64.dfy`, `PasswordHash.dfy` | strict unpadded base64 (section 4 of RFC 4648); the password-hash string |
| `SecretValues.dfy`, `Variables.dfy` | encrypted values; the scoped variable store |

A controller is given twice. Its protocol is a control state with two functions: `Requested`, the API call due in a
state, and `Advance`, where a response leads. Its code is a class whose methods keep the loops, early returns and field
updates of the source; for every sequence of responses the methods are proved to make exactly the calls of the protocol
and to end where the protocol ends (`Api.At`). The theorems about concurrent executions are about the protocol, run
against a store with resource versions, lagging reads, refused writes, lost responses and crashes between any two calls.
What the calls of a protocol are is stated once more, independently of it, in modules `WorkflowCalls` and `PassCalls`:
on the requests and responses of a log, with the constants the controllers use.

## What is proved

- A run's actions are launched at most once, and the actions ever started are a prefix of the Workflow's action list.
- Once Finished is stored and the Reconcile that stored it is over, no reconciler changes the run's conditions.
- A scan of jobs writes once for every condition that calls for it before the first active job, in list order. A call
  of RunAction that does not start its action is followed by exactly one write, of Finished/False.
- With nobody else at work, an undisturbed Reconcile stores the verdict on the jobs, or claims an unclaimed run and
  starts its actions, all of them or those up to the first that fails, and then stores the failure. It leaves the run
  finished iff the run was finished, or some job decides and none is active, or an action of the launch fails.
- The run of a component is looked up iff its workflow was triggered or is running, and an undisturbed stretch of a
  pass then leaves in the component what the run's conditions call for.
- Once something is stored and nobody is launching, no action is ever started again, whatever happens. From then on,
  without jobs from elsewhere, an unfinished run can still succeed iff an action with the name of the last one has
  created a job, and with nobody at work it can still finish iff it has any job at all. If jobs that have completed or
  failed do not do the other as well, the conditions are that a job of the last action has not failed, or has
  completed, and that some job is not just a completed one of another action.
- Every stored condition list of a run has at most one entry; RunningAction is only ever True; Finished/True is stored
  only if a job of the last action has completed.
- A component that says WorkflowSucceed carries a label naming a run whose last action has a completed job.
- A component's label names a run launched for that component and its current Source, by the pass that stored it.
- Without failures a component has one run plus one for every pass that found another Source, and carries a label. A
  component left without label gets one only from a pass that finds another Source.
- The final write of every pass has one entry per component found in the status or in the store, counts the Running
  ones exactly, and its ReadyComponents cannot exceed its TotalComponents, whatever the components' readiness, iff it
  has no more entries than that. Every other write of a pass carries the counts that the pass has read.
- After a successful pass every template is installed; another pass over the same templates only reads and writes
  statuses.
- A component's status never holds two conditions of a type, and Ready is True exactly when its reason is Running,
  under any interleaving of whole-status writes from old copies.
- Objects are applied in the one stable order of their kinds, first the saved ones, then the rendered ones, without
  skipping or repeating any, up to the first failure. A reconcile of a component ends in one of ten ways, and each has
  its exact sequence of status writes; none ever says Running.
- A generated password-hash string parses back to exactly its parts, so every password matches its own hash. The
  strings that are accepted at all are characterised by a grammar, and the verdict on every string by that grammar.
- A created variable has the fields of its request, secrets sealed, and the status of every create request is exact.
- No two variables of a type share a scope key, all-zero ids excepted; a listing returns exactly the surviving
  variables of its scope, with the values they were created with, strictly increasing in name.

What the code does not give is stated too, with the exact condition under which it does:

- A failed job is hidden by a later completed job of the last action or by an active job (`FailureCanBeHidden`,
  `FailureReportedIff`).
- A triggered run need not finish. A crash during the launch leaves the actions not yet started unstarted for good
  (`CrashEndsLaunch`); when nobody else is at work, the run can then never succeed iff it has failed already or no
  action started before the crash that has the name of the last one created a job (`LaunchCrashIff`). `LaunchedIff` says
  the same of all runs whose launch is over, crash or not, so the crash costs exactly the jobs that are not created.
  A claim that is lost leaves the run unfinished for good (`LostClaimNeverFinishes`). `CrashedRun` builds an execution
  from the initial state that ends in a crash, for every number of actions started before the last.
- The writes in the middle of a pass can store a wrong ReadyComponents, which stays if the pass then fails
  (`MidPassMiscount`); a count that was right when read stays right iff as many components have become ready as have
  ceased to be, among those the pass has finished with (`MidPassCount`).
- A component whose creation was cut short, or whose Workflow was missing, has no label, and keeps having none until
  a pass finds another Source in its template (`UnlabelledStays`, `ChangeLabels`).
- Status entries of removed templates stay and can break ReadyComponents <= TotalComponents
  (`Counterexamples.RemovalBreaksTheCount`, `FinalCount`).
- A writer that stores an old copy of a component's status can make the component claim a success that its run has not
  had (`StaleReadyBreaksSuccess`); `SafeCopyIff` says exactly which copies are safe: the others break the success
  property at once.
- Variables with an all-zero id in their scope key are always admitted, duplicates included, and never listed, because
  the `omitempty` tags of models/variables.go:34-41 leave such an id out (`NilIdsAreAdmitted`, `ListedIff`).
  `StrictIff` says exactly which insertions keep uniqueness without exception.

## Hypotheses

- The action list of a Workflow is fixed while a run of it is worked on. An empty list makes the code panic
  (workflow_controller.go:60); the model ends in `Panic` there.
- Only the Workflow controller writes the conditions of a WorkflowRun. Jobs are only added, and keep the label and the
  conditions they have; the jobs an action creates carry its name (workflow/action.go:98-101). Modules
  `WorkflowStranded` and `WorkflowOutcome` speak of executions in which nobody else adds jobs to a run.
- Hashes of different specs differ: comparing hashes (application/handler.go:205-206) is comparing specs.
- One pass over an Application is at work at a time, as controller-runtime serialises the reconciles of one object.
  Reads of components are up to date; reads of Applications and runs may return any past version.
- In module `Controllers` nobody else writes the spec or the run label of a component; other writers of its status,
  the Component controller among them, set the Ready condition on a copy that is safe in the sense of `SafeCopy`; a
  template's own labels do not contain the run label. Distinct template names are assumed only for convergence.
- Requests to the variable store come one after the other; a lookup fails only when nothing matches; the key has a
  length AES accepts and nonces have 12 bytes (section 7 of NIST SP 800-38D). Opening undoes sealing, and a derived
  key has the requested length: nothing else is assumed of the two primitives.

Where the code surprises, the model follows the code:

- A recorded launch failure is returned as success, because line 101 of workflow_controller.go overwrites `err`.
- `workflow.Setup` is not among the setup functions of internal/controller/core/setup.go:11-14, so this manager does
  not start the Workflow controller; it is modelled as written.
- The lookup that admits an organization variable does not filter by type, so it also refuses a name used by any
  environment or component variable of that organization (`AdmittedIff`).
- `decodeHash` ignores the first two fields, and any text without leading digit after the version number and after the
  last parameter; blanks before the numbers and a sign before the version are accepted as well (`AcceptedIff`,
  `TrailingTextIsIgnored`).

## Model

| member | source | states |
|---|---|---|
| Conditions.ContainsCondition | internal/controller/core/common/conditions.go:13-20 | finds the first condition of a type, and reports absence exactly when there is none |
| Conditions.SetCondition | internal/controller/core/common/conditions.go:23-38 | stores the condition as a map update would |
| Conditions.FindAfterPut | internal/controller/core/common/conditions.go:23-38 | after a store the new condition is found under its type and every other type reads as before |
| Conditions.PutKeepsUnique | internal/controller/core/common/conditions.go:30-37 | at most one condition per type is an invariant of the list |
| StatusRetry.ApplyStatus | internal/controller/core/common/conditions.go:41-54 | at most five attempts, for every adversary; stores the status once on success and never otherwise, on the labels and spec it replaces; succeeds iff one of five attempts is calm after contended ones, and reports a conflict iff all five are contended |
| StatusRetry.Server.Get | internal/controller/core/common/conditions.go:43-47 | answers with a version that may be any number of versions old, after which other writers may come in |
| StatusRetry.Server.UpdateStatus | internal/controller/core/common/conditions.go:48 | is refused at an old version and otherwise replaces the status and nothing else |
| StatusRetry.WritesOnceOrNever | internal/controller/core/common/conditions.go:41-54 | the call stores once if it succeeds and never otherwise; the stored version has the caller's status and the spec and labels it replaces |
| StatusRetry.SucceedsIff | internal/controller/core/common/conditions.go:41-54 | succeeds iff an attempt that reads the latest version and is not overtaken comes within the budget, after attempts that only read old versions or were overtaken; reports a conflict iff all attempts were like those |
| StatusRetry.LaggingReadsConflict | internal/controller/core/common/conditions.go:42-49 | reads that lag behind exhaust the budget and write nothing, although nobody else writes |
| WorkflowReconcile.ExactVerdict | internal/controller/core/workflow/workflow_controller.go:68-91 | the nested loop leaves the verdict on positions: first active job, else last deciding pair, else no change; it returns early iff a job is active |
| WorkflowReconcile.VerdictActive | internal/controller/core/workflow/workflow_controller.go:71-78 | an active job gives RunningAction/True naming the first one, whatever was decided before it |
| WorkflowReconcile.VerdictDecided | internal/controller/core/workflow/workflow_controller.go:79-90 | without active jobs the last deciding pair in list order fixes Finished |
| WorkflowReconcile.VerdictUndecided | internal/controller/core/workflow/workflow_controller.go:68-91 | with neither, nothing is written |
| WorkflowReconcile.FailureReportedIff | internal/controller/core/workflow/workflow_controller.go:68-91 | a failed job ends as Finished/False iff no job is active and no completed last-action job comes after the last failure |
| WorkflowReconcile.FailureCanBeHidden | internal/controller/core/workflow/workflow_controller.go:72-88 | job lists for which Finished/False is overwritten within one scan |
| WorkflowReconcile.ReconcileStallsIff | internal/controller/core/workflow/workflow_controller.go:68-94 | a Reconcile that gets as far as listing the jobs does nothing with them iff the run is marked as running and no job is active or decides |
| WorkflowReconcile.Reconciler.Reconcile | internal/controller/core/workflow/workflow_controller.go:27-108 | for every sequence of responses, makes exactly the protocol's calls and returns its outcome |
| WorkflowReconcile.Reconciler.ReadAll | internal/controller/core/workflow/workflow_controller.go:30-66 | the reads, the not-found returns, the isFinished return, and the panic on an empty action list |
| WorkflowReconcile.Reconciler.ScanJobs | internal/controller/core/workflow/workflow_controller.go:68-91 | the outer loop makes the writes of the scan one by one and stops at an active job or a failed write |
| WorkflowReconcile.Reconciler.StoreDecided | internal/controller/core/workflow/workflow_controller.go:82-88 | one decided condition is stored, and a failed write ends the Reconcile |
| WorkflowReconcile.Reconciler.ScanConditions | internal/controller/core/workflow/workflow_controller.go:79-90 | the inner loop makes the writes decided by one job's conditions |
| WorkflowReconcile.Reconciler.LaunchIfIdle | internal/controller/core/workflow/workflow_controller.go:93-107 | launches only if the local copy is neither finished nor running, claims first, and records a launch failure |
| WorkflowReconcile.Reconciler.SetCondition | internal/controller/core/workflow/workflow_controller.go:110-118 | each write replaces the whole condition list by one entry, at the version the copy carries |
| WorkflowReconcile.Reconciler.RunActions | internal/controller/core/workflow/action.go:48-56 | starts the actions in list order and stops at the first error |
| WorkflowCalls.ScanWrites | internal/controller/core/workflow/workflow_controller.go:68-91 | the writes of a scan are exactly those called for by the conditions before the first active job, in list order, followed by RunningAction/True naming that job |
| WorkflowCalls.ReadsInOrder | internal/controller/core/workflow/workflow_controller.go:30-66 | run, Application, Workflow and jobs are read in this order, each only if the one before was found, the jobs only for an unfinished run and a Workflow with actions |
| WorkflowCalls.EndAfterReads | internal/controller/core/workflow/workflow_controller.go:30-60 | a missing object or a finished run ends in success, another answer in an error, an empty action list in a panic |
| WorkflowCalls.ScanCalls | internal/controller/core/workflow/workflow_controller.go:68-91 | after listing jobs of which some are active or decide, the calls are the writes of the scan, each at the version the one before was stored at; a refused one ends in an error, the last in success |
| WorkflowCalls.ClaimComesFirst | internal/controller/core/workflow/workflow_controller.go:93-99 | after listing quiet jobs exactly a run not marked as running is claimed, with RunningAction/True at the version read |
| WorkflowCalls.LaunchCalls | internal/controller/core/workflow/workflow_controller.go:93-107 | once the claim is stored RunAction is called for the actions in order while they start; with the last one started the Reconcile succeeds |
| WorkflowCalls.LaunchFailureCall | internal/controller/core/workflow/workflow_controller.go:100-104 | an action that does not start is followed by exactly one call, which stores Finished/False at the version of the claim; if stored, success is returned |
| WorkflowCalls.LaunchFailureIsStored | internal/controller/core/workflow/workflow_controller.go:100-104 | in every interleaving, what the reconciler stores after an action that did not start is Finished/False with reason FinishedFailed, and only at the version of the claim |
| WorkflowRuns.AtMostOnceLaunch | internal/controller/core/workflow/workflow_controller.go:93-118 | over every run RunActions is entered at most once, and the calls of RunAction are a prefix of the action list |
| WorkflowRuns.ClaimKeeps | internal/controller/core/workflow/workflow_controller.go:93-99 | a claim is stored only while nothing is stored and nobody has launched |
| WorkflowRuns.ShapeAndSoundness | internal/controller/core/workflow/workflow_controller.go:72-118 | every stored list is empty or one entry, RunningAction is True, Finished/True implies a completed last-action job |
| WorkflowRuns.ScanSound | internal/controller/core/workflow/workflow_controller.go:68-91 | a scan of jobs read through a lagging cache writes only justified conditions |
| WorkflowRuns.WriterGoneSettles | internal/controller/core/workflow/workflow_controller.go:53-55 | once the writer of Finished is over, every reconciler past the check holds an outdated version |
| WorkflowRuns.FinishedAbsorbing | internal/controller/core/workflow/workflow_controller.go:53-118 | from then on the stored conditions never change and every status write is refused |
| WorkflowProgress.UndisturbedReconcile | internal/controller/core/workflow/workflow_controller.go:27-108 | without other reconcilers at work, an undisturbed Reconcile stores the verdict if a job is active or decides, else claims an unclaimed run and starts its actions: all of them, or exactly those up to the first that fails, and then stores Finished/False; it changes the stored conditions or starts an action iff the run is unfinished and unclaimed or stored with another verdict; it leaves the run finished iff it was finished, or a job decides and none is active, or an action of the launch fails |
| WorkflowProgress.LeadsToOne | internal/controller/core/workflow/workflow_controller.go:27-108 | that Reconcile has one end: the undisturbed calls determine it |
| WorkflowStranded.LaunchOverForGood | internal/controller/core/workflow/workflow_controller.go:93-107 | once something is stored and nobody is launching, no action is started any more, in any execution |
| WorkflowStranded.CrashEndsLaunch | internal/controller/core/workflow/action.go:48-56 | after a crash during the launch the actions started are, for good, those before the position of the crash |
| WorkflowStranded.JobsComeFromActions | internal/controller/core/workflow/action.go:48-104 | in every execution without jobs from elsewhere, a job has a name iff a call of RunAction for an action of that name created a job |
| WorkflowStranded.DoomedForGood | internal/controller/core/workflow/workflow_controller.go:68-107 | once the launch is over and no job of the last action can complete, this stays so whatever the run's jobs and any reconcilers do |
| WorkflowStranded.DoomedSaysNoSuccess | internal/controller/core/workflow/workflow_controller.go:79-84 | such a run never says that it succeeded |
| WorkflowStranded.StrandedForGood | internal/controller/core/workflow/workflow_controller.go:68-107 | a run without a job that can decide stays so, and unfinished, whatever the run's jobs and any reconcilers do |
| WorkflowOutcome.LaunchedSucceedsIff | internal/controller/core/workflow/workflow_controller.go:68-107 | once the launch is over and while the run is unfinished, it can still succeed iff a job of the last action has completed or can still complete, whatever reconcilers are at work |
| WorkflowOutcome.NeverSucceedsIff | internal/controller/core/workflow/workflow_controller.go:27-107 | with nobody at work, no execution with the run's own jobs stores Finished/True iff the run has failed, or is claimed and unfinished and no job of the last action has completed or can still complete |
| WorkflowOutcome.NeverFinishesIff | internal/controller/core/workflow/workflow_controller.go:27-107 | with nobody at work, no execution with the run's own jobs stores Finished iff the run is claimed and unfinished and no job can decide: if jobs may still fail after completing, iff it has no jobs |
| WorkflowOutcome.LaunchedIff | internal/controller/core/workflow/workflow_controller.go:93-107 | in every execution without jobs from elsewhere, once the launch is over and while the run is unfinished, it can still succeed iff an action with the name of the last one created a job |
| WorkflowOutcome.LaunchCrashIff | internal/controller/core/workflow/action.go:48-56 | after a crash during the launch, with nobody else at work, the run can never succeed iff it has failed already or no action started before the crash that has the name of the last one created a job |
| WorkflowOutcome.CrashPreventsSuccess | internal/controller/core/workflow/action.go:48-56 | a run whose reconciler crashes before an action with the name of the last one is started never succeeds, whatever other reconcilers are at work |
| WorkflowOutcome.LostClaimStrands | internal/controller/core/workflow/workflow_controller.go:95-99 | a stored claim whose reconciler crashes, or never learns of it, strands the run unless a job can decide, whatever other reconcilers are at work |
| WorkflowOutcome.LostClaimNeverFinishes | internal/controller/core/workflow/workflow_controller.go:95-99 | in every execution without jobs from elsewhere such a run never finishes, starts nothing and has no jobs |
| WorkflowOutcome.CrashedRun | internal/controller/core/workflow/workflow_controller.go:93-107 | an execution from the initial state in which the reconciler crashes after any number of actions before the last, their jobs complete, and the run can never succeed and never finish |
| WorkflowRuns.Reachable | internal/controller/core/workflow/workflow_controller.go:27-118 | the invariant behind these theorems holds in every state of every execution |
| ApplicationReconcile.ApplicationHandler.ReconcileComponents | internal/controller/core/application/handler.go:38-54 | for every sequence of responses, a pass makes exactly the protocol's calls and ends in its final state |
| ApplicationReconcile.ApplicationHandler.ReconcileComponent | internal/controller/core/application/handler.go:56-141 | one template: look up, create or update, mirror the run, record the entry; errors end the pass |
| ApplicationReconcile.ApplicationHandler.CreateNewComponent | internal/controller/core/application/handler.go:177-201 | the call order of a creation; a missing Workflow is tolerated, other errors are recorded |
| ApplicationReconcile.ApplicationHandler.PlaceComponent | internal/controller/core/application/handler.go:178-186 | create, apply the Workflow, store WorkflowTriggered |
| ApplicationReconcile.ApplicationHandler.UpdateExistingComponent | internal/controller/core/application/handler.go:203-237 | equal specs change nothing; a changed Source triggers a run before the spec is replaced |
| ApplicationReconcile.ApplicationHandler.Retrigger | internal/controller/core/application/handler.go:209-229 | trigger, run, and the label to install; any failure ends the pass |
| ApplicationReconcile.ApplicationHandler.RecordTriggerFailure | internal/controller/core/application/handler.go:218-224 | the failed trigger is stored on the component and then on the Application |
| ApplicationReconcile.ApplicationHandler.RunComponentWorkflow | internal/controller/core/application/handler.go:274-301 | the Workflow is read, then the run is created |
| ApplicationReconcile.ApplicationHandler.SendUpdate | internal/controller/core/application/handler.go:226-234 | label and spec go out in one Update |
| ApplicationReconcile.ApplicationHandler.MirrorRun | internal/controller/core/application/handler.go:105-119 | a run is looked up only while the workflow is triggered or running |
| ApplicationReconcile.ApplicationHandler.CopyRun | internal/controller/core/application/handler.go:108-119 | the run is looked up by the label; a missing run is tolerated |
| ApplicationReconcile.ApplicationHandler.UpdateWorkflowRunConditions | internal/controller/core/application/handler.go:143-175 | the status writes of the mirroring, in order, stopping at the first error |
| ApplicationReconcile.MirrorOutcome | internal/controller/core/application/handler.go:143-175 | the conditions mirroring leaves: Finished decides over RunningAction, only success makes Ready pending |
| ApplicationReconcile.ApplicationHandler.RecordEntry | internal/controller/core/application/handler.go:120-140 | the upsert loop enters the component's readiness |
| ApplicationReconcile.ApplicationHandler.EnterEntry | internal/controller/core/application/handler.go:133-140 | the loop overwrites the entry of the component or appends it |
| ApplicationReconcile.EntryAfterUpsert | internal/controller/core/application/handler.go:133-139 | the upsert is a map update keyed by component name |
| ApplicationReconcile.ApplicationHandler.CountReady | internal/controller/core/application/handler.go:45-50 | counts the Running entries |
| ApplicationReconcile.ApplicationHandler.Finish | internal/controller/core/application/handler.go:45-53 | enters the Running entries and the number of templates of the refreshed Application, and stores the status |
| ApplicationReconcile.ApplicationHandler.SetComponentCondition | internal/controller/core/application/handler.go:303-306 | the component's whole status is written with the condition set |
| ApplicationReconcile.ApplicationHandler.SetApplicationCondition | internal/controller/core/application/handler.go:333-343 | the Application's condition is set in place, its whole status is written, and the answer refreshes its templates |
| ApplicationReconcile.ApplicationHandler.RecordFailure | internal/controller/core/application/handler.go:88-92 | a failed creation is recorded and ends the pass |
| PassCalls.CreationCalls | internal/controller/core/application/handler.go:82-99 | a component that is not found is marked as rendering, created with its spec and nothing else, and has its Workflow applied before its run is launched; the first failure ends the pass, recorded from the creation on |
| PassCalls.ExistingCalls | internal/controller/core/application/handler.go:203-237 | a component that is found is up to date with the template's spec; with another Source the rendering is marked and a run launched; another difference is one Update of the spec |
| PassCalls.LookupFails | internal/controller/core/application/handler.go:79-101 | any other answer to the lookup ends the pass |
| PassCalls.LaunchCalls | internal/controller/core/application/handler.go:181-231 | a launch stores WorkflowTriggered/True, reads the Workflow, creates the run, and sends one Update with its label and, for an existing component, the template's spec |
| PassCalls.WorkflowFailureCalls | internal/controller/core/application/handler.go:274-290 | without Workflow a new component is updated without run; every other failure to read it is stored as WorkflowTriggered/False |
| PassCalls.RunFailureCalls | internal/controller/core/application/handler.go:274-301 | the same when the run cannot be created |
| PassCalls.TriggerFailureCall | internal/controller/core/application/handler.go:191-224 | a failure to trigger is stored in the component, then as RenderingComponentFailed in the Application status, and ends the pass |
| PassCalls.UpdateCall | internal/controller/core/application/handler.go:226-237 | what the Update carries, and what follows it: the run of an existing component is looked up iff its workflow was triggered or is running, else its entry is recorded |
| PassCalls.MirrorCalls | internal/controller/core/application/handler.go:105-175 | the run is looked up by the component's label; what its conditions call for is stored write by write, then the component is entered; a missing run changes nothing, any other answer ends the pass |
| PassCalls.PassStarts | internal/controller/core/application/handler.go:38-44 | a pass begins with the first template, or at once with the final write |
| PassCalls.PassEnds | internal/controller/core/application/handler.go:45-54 | the final write is the last call, carries the number of Running entries and of the templates last heard of, and the pass succeeds exactly when it does |
| Mirroring.RunIsMirrored | internal/controller/core/application/handler.go:105-175 | on every undisturbed stretch of a pass, a component found triggered or running has its run looked up, and is stored with the Workflow and Ready conditions the run's conditions call for, nothing else changing, and entered in the Application status |
| Controllers.EndToEndSuccess | internal/controller/core/application/handler.go:143-175 | in every execution a component that says WorkflowSucceed names a run whose last action has a completed job |
| Controllers.LabelFollowsSource | internal/controller/core/application/handler.go:177-237 | in every execution a label names the run launched for the stored Source by the pass that stored it, failures after any call included |
| Controllers.MirrorJustified | internal/controller/core/application/handler.go:143-175 | what any stored version of a run makes a pass announce is justified by its jobs |
| Controllers.RunningIsNeverFalse | internal/controller/core/application/handler.go:144-156 | the branch for a RunningAction that is not True is dead in the composed system |
| Controllers.SafeCopyIff | internal/controller/core/component/handler.go:136-147 | a whole-status write of Ready from any copy leaves the success property true right after it iff the copy does not say that the workflow succeeded or the current label's run has completed, and this is exactly when the write keeps the invariant |
| Controllers.StatusWriteKeeps | internal/controller/core/application/handler.go:303-306 | overwriting the whole status from the pass's copy keeps the invariant if what it then says about the workflow is justified |
| Controllers.UpdateKeeps | internal/controller/core/application/handler.go:226-234 | replacing spec and label together keeps the invariant |
| Controllers.Reachable | internal/controller/core/application/handler.go:38-237 | the invariant behind these theorems holds in every state of every execution |
| Passes.RunAccounting | internal/controller/core/application/handler.go:79-103 | without failures a component has one run plus one for every comparison that found another Source |
| Passes.EveryComponentLabelled | internal/controller/core/application/handler.go:197-231 | without failures every component carries a label of a run for it and its stored Source |
| Passes.UnlabelledStays | internal/controller/core/application/handler.go:65-103 | a component without label stays without one, failures or not, until a pass finds that its Source differs |
| Passes.ChangeLabels | internal/controller/core/application/handler.go:205-231 | a pass that finds another Source gives the component a label if no failure stops it |
| Passes.Convergence | internal/controller/core/application/handler.go:38-103 | after a successful pass every template is installed; a second pass creates nothing, writes no spec and starts no run |
| Passes.PassProgresses | internal/controller/core/application/handler.go:38-44 | at every step of a pass the templates before the current one are installed |
| Counting.FinalCount | internal/controller/core/application/handler.go:38-54 | in every execution the final write of a pass has one entry per component found in the status or in the store, counts the Running ones exactly, these being the ones read, overwritten by what the pass has seen, and fits TotalComponents for every readiness iff the components are no more |
| Counting.FitsIff | internal/controller/core/application/handler.go:45-52 | the Running entries are no more than a total, whatever the readiness, iff the entries are no more |
| Counting.PassEntries | internal/controller/core/application/handler.go:120-140 | the entries of a pass are those it started with and those it recorded |
| Counting.FoundIsRecorded | internal/controller/core/application/handler.go:64-140 | the components recorded by a pass are those it found in the store, but for the one it is working on |
| Counting.MidPassCount | internal/controller/core/application/handler.go:333-343 | in every execution, a write of a pass other than the final one stores the counts as read, and as Running entries those read, overwritten by the readiness of the components the pass has finished with; a count that was right stays right iff as many of these have become ready as have ceased to be |
| Counting.PassReadiness | internal/controller/core/application/handler.go:120-140 | the Running entries a pass carries are those it started with, overwritten by the readiness of the components it recorded, as last seen |
| Counting.CountIsByName | internal/controller/core/application/handler.go:45-50 | with one entry per component the count is the number of components whose entry says Running |
| Counting.NeverRemoved | internal/controller/core/application/handler.go:45-52 | while templates are never removed: one entry per component, only template names, ReadyComponents <= TotalComponents, in every stored version |
| Counting.UpsertKeepsUnique | internal/controller/core/application/handler.go:133-139 | the upsert loop keeps one entry per component |
| Counting.UpsertNames | internal/controller/core/application/handler.go:133-139 | the upsert loop adds at most the component's own name |
| Counting.RunningFit | internal/controller/core/application/handler.go:45-52 | entries with distinct template names are no more than the templates |
| Counterexamples.RemovalBreaksTheCount | internal/controller/core/application/handler.go:45-53 | an execution in which a template is removed and the next pass stores more ready than total components |
| Counterexamples.MidPassMiscount | internal/controller/core/application/handler.go:79-92 | an execution in which a pass stores a Running entry with the old count before its second template |
| Counterexamples.StaleReadyBreaksSuccess | internal/controller/core/component/handler.go:136-147 | an execution in which storing an old copy of the status makes a component claim the success of a run that has done nothing |
| StatusInterleaving.StatusSafety | internal/controller/core/application/handler.go:303-331 | in every interleaving each stored status has one condition per type and Ready is True iff Running |
| StatusInterleaving.ReadyWriteRestoresItsCopy | internal/controller/core/component/handler.go:136-147 | a writer of Ready puts back the Workflow condition of its copy |
| ComponentApply.ApplyOrder | internal/controller/core/component/handler.go:176-178 | the apply order is a permutation, non-decreasing in kind rank, stable, and the only such sequence |
| StableSort.StableSortingIsUnique | internal/controller/core/component/handler.go:176-178 | any two stable sortings agree |
| StableSort.SortedIsStable | internal/controller/core/component/handler.go:176-178 | the sorting used in the model is a stable sorting |
| ComponentApply.KindsInOrder | internal/controller/core/component/handler.go:34-59 | the listed kinds rank 1 to 24 in their order, all others before them |
| ComponentApply.RenderedAreLabelled | internal/controller/core/component/handler.go:95-100 | every rendered object gets the hash of its spec as label and is otherwise unchanged |
| ComponentApply.FlattenConcat | internal/controller/core/component/handler.go:214-216 | flattening keeps every object of every set, in order |
| ComponentApply.ComponentHandler.ApplyResources | internal/controller/core/component/handler.go:175-191 | a failure at position k means that exactly the first k objects were applied and that DeployingFailed is told; the set is cleared only on success |
| ComponentApply.ComponentHandler.Prepare | internal/controller/core/component/handler.go:157-169 | Rendering is told first, then RenderingFailed or RenderingSucceed as the rendering went; a failed status write ends the reconcile |
| ComponentApply.StatusWrites | internal/controller/core/component/handler.go:136-191 | the status writes of a reconcile, by where it ends: the Ready reasons in order, each with status False and the Workflow condition untouched; only the first can be missing, when it is stored already; only the last can fail; the stored status is that of the last that did not |
| ComponentApply.NeverSaysRunning | internal/controller/core/component/handler.go:136-191 | no reconcile ever writes that the component is Running |
| ComponentApply.DeployingFailureIsStored | internal/controller/core/component/handler.go:179-188 | after a failed apply DeployingFailed is stored iff the write of it succeeded, or it was stored before and nothing else was written since |
| ComponentApply.SuccessIsStored | internal/controller/core/component/handler.go:167-170 | after a complete reconcile RenderingSucceed is stored |
| ComponentApply.ComponentHandler.ReconcileDeployedObjects | internal/controller/core/component/handler.go:193-230 | applies the saved objects in order, up to the first failure |
| ComponentApply.ComponentHandler.AddSets | internal/controller/core/component/handler.go:214-216 | appends the saved sets in order |
| ComponentApply.ComponentHandler.AddRendered | internal/controller/core/component/handler.go:95-100 | every object of a set gets its hash label and joins the apply set; an object without spec map panics |
| ComponentApply.ComponentHandler.Render | internal/controller/core/component/handler.go:70-134 | labels and appends every rendered object and saves the sets; panics only without a spec map or annotations |
| ComponentApply.ComponentHandler.RenderOrRecord | internal/controller/core/component/handler.go:161-166 | a failure to render is recorded and saves nothing |
| ComponentApply.ComponentHandler.RenderComponent | internal/controller/core/component/handler.go:157-171 | applies the rendered objects in order, up to the first failure |
| ComponentApply.Reconcile | internal/controller/core/component/component_controller.go:24-42 | a missing component is nothing to do; otherwise the applied objects are a prefix of saved-then-rendered, a successful reconcile applies all and saves what it rendered, and the log of status writes and the stored status are those of the stage at which it ends |
| ComponentApply.ComponentHandler.SetConditionReady | internal/controller/core/component/handler.go:136-147 | a condition that already reads like this is not written again; otherwise the whole status is, with status True for Running alone |
| Base64.StrictInverse | cmd/api-server/auth/crypto.go:107-113 | strict decoding accepts exactly the encodings, up to line breaks, and inverts them |
| Base64.LetterIs | cmd/api-server/auth/crypto.go:59-60 | the alphabet, by character codes |
| Base64.EncodeIs | cmd/api-server/auth/crypto.go:59-60 | the four characters of a group of three bytes, as RFC 4648 cuts its bits, followed by the encoding of the rest |
| Base64.OneByteIs | cmd/api-server/auth/crypto.go:59-60 | a last single byte gives two characters, filled up with zero bits and not padded |
| Base64.TwoBytesAre | cmd/api-server/auth/crypto.go:59-60 | two last bytes give three characters |
| PasswordHash.DecodeHash | cmd/api-server/auth/crypto.go:86-120 | what it accepts is canonical, and a printed string gives back exactly the values printed |
| PasswordHash.HashStringRoundTrip | cmd/api-server/auth/crypto.go:57-120 | the printed string is parsed back to exactly its values, for all salts, keys and parameters in range |
| PasswordHash.SplitJoin | cmd/api-server/auth/crypto.go:87-90 | splitting undoes joining, for any number of fields without a dollar sign |
| PasswordHash.GeneratedForm | cmd/api-server/auth/crypto.go:46-66 | a generated string is $argon2id$v=19$m=65536,t=3,p=2$ followed by salt and key, the key derived with these parameters and 32 bytes long |
| PasswordHash.Compare | cmd/api-server/auth/crypto.go:68-84 | for every string: a match iff it is accepted with positive passes and threads and the key the password derives; a panic iff it is accepted with a zero one; an error, for the first faulty field, iff it is not accepted; else a mismatch; and a generated string matches exactly the passwords that derive the same key |
| PasswordHash.GeneratedHashMatches | cmd/api-server/auth/crypto.go:46-84 | a password matches its own hash, and another one exactly when it derives the same key |
| PasswordHash.GeneratedWithMatches | cmd/api-server/auth/crypto.go:46-84 | the same for all parameters in range |
| PasswordHash.AcceptedIsCanonical | cmd/api-server/auth/crypto.go:107-117 | accepted strings carry canonical base64, parameters in range and the lengths of salt and key |
| PasswordHash.AlgorithmIsIgnored | cmd/api-server/auth/crypto.go:87-99 | the first two fields do not influence the result |
| PasswordHash.AcceptedIff | cmd/api-server/auth/crypto.go:86-120 | exactly which strings are accepted and for which values: the version and the parameters as a grammar of blanks, signs and digits with free text behind, canonical base64 up to line breaks |
| PasswordHash.TrailingTextIsIgnored | cmd/api-server/auth/crypto.go:92-105 | text without leading digit after the version number and after the last parameter does not influence the result |
| SecretValues.HexRoundTrip | cmd/api-server/variables/crypto.go:39-45 | hexadecimal decoding inverts encoding |
| SecretValues.HexEncodeIs | cmd/api-server/variables/crypto.go:39-40 | two lower-case hexadecimal digits for each byte |
| SecretValues.SecretIsSealed | cmd/api-server/variables/crypto.go:19-42 | a secret is stored as the hexadecimal text of the nonce and the value sealed with key and nonce; panics exactly for a key not of 16, 24 or 32 bytes |
| SecretValues.SecretIsOpened | cmd/api-server/variables/crypto.go:43-67 | a stored text is shown as what its bytes after the first 12 open to, and anything else panics |
| SecretValues.SecretRoundTrip | cmd/api-server/variables/crypto.go:19-67 | with a usable key every value encrypts without panic and decrypts to itself |
| Variables.ScopeUniqueness | cmd/api-server/variables/handler.go:234-268 | after any history no two variables of a type share a scope key, and each has the ids its scope needs, but for documents whose all-zero ids were left out |
| Variables.StrictUniqueness | cmd/api-server/variables/handler.go:234-268 | without exception if no request names an all-zero id for its scope |
| Variables.StrictIff | cmd/api-server/models/variables.go:34-41 | exactly which admitted variables keep uniqueness without exception: those without all-zero ids, and the first of its name without organization id |
| Variables.NilIdsAreAdmitted | cmd/api-server/models/variables.go:145-172 | a complete variable with an all-zero id in its scope is admitted, whatever is stored |
| Variables.AdmittedIff | cmd/api-server/models/variables.go:145-172 | exactly when a complete request is admitted, for each type |
| Variables.ListingRoundTrip | cmd/api-server/variables/handler.go:31-119 | after any history a listing is exactly the scope's surviving variables with their created values, strictly increasing in name |
| Variables.ListedIff | cmd/api-server/models/variables.go:93-143 | a stored variable is found by a listing iff it was created for the scope and no id of the scope is all zero |
| Variables.PlainRunHoldsSurvivors | cmd/api-server/variables/handler.go:121-232 | the surviving variables are those inserted and not deleted later |
| Variables.StoredStandsForPlain | cmd/api-server/variables/handler.go:180-182 | every stored value decrypts, and the stored documents stand for the plain history |
| Variables.ValidNameIff | cmd/api-server/models/variables.go:47-57 | the valid names, by character codes |
| Variables.Handler.ReadRequest | cmd/api-server/variables/handler.go:121-167 | refuses exactly malformed requests, and otherwise gives the variable whose fields are those of URL and body, of the most specific kind in the URL |
| Variables.AdmissibleIff | cmd/api-server/variables/handler.go:234-268 | the variable of a request is admitted iff it lacks no id of its scope and no document has its name in that scope |
| Variables.Handler.CreateVariable | cmd/api-server/variables/handler.go:121-192 | the exact status for every request; on Created one document is added, with the fields of the request, encrypted iff asked for, the value sealed then and plain otherwise; else nothing changes |
| Variables.Handler.CheckVariable | cmd/api-server/variables/handler.go:234-268 | accepts exactly complete variables that no lookup finds |
| Variables.Handler.FindOne | cmd/api-server/models/variables.go:145-172 | reports a document iff one satisfies the lookup's filter |
| Variables.Handler.InsertOne | cmd/api-server/models/variables.go:59-71 | appends the document unless its id is in use |
| Variables.Handler.DeleteVariable | cmd/api-server/variables/handler.go:194-232 | deletes by id for the owner of the organization found; a failed lookup, another owner or a malformed id change nothing |
| Variables.Handler.DeleteOne | cmd/api-server/models/variables.go:84-91 | removes the first document with the id and keeps the rest in order |
| Variables.WithoutMembers | cmd/api-server/models/variables.go:84-91 | exactly the other documents remain |
| Variables.Handler.DecryptAll | cmd/api-server/variables/handler.go:46-50 | the in-place loop decrypts every encrypted value, or panics |
| Variables.Handler.ListOrganizationVariables | cmd/api-server/variables/handler.go:31-53 | the listing of the organization's scope, or the error |
| Variables.Handler.ListEnvironmentVariables | cmd/api-server/variables/handler.go:55-84 | the listing of the environment's scope, or the error |
| Variables.Handler.ListComponentVariables | cmd/api-server/variables/handler.go:86-119 | the listing of the component's scope, or the error |

## Left out

- ApplicationReconcile.ApplicationHandler.ReconcileComponents: ranges over the templates it started with. The source decodes the answer of an Application status write into the object it ranges over; the model refreshes the template list that TotalComponents counts, not the array under the range.
- Controllers.EndToEndSuccess: covers whole-status writes of other controllers from safe copies only; an unsafe one breaks it.
- WorkflowProgress.UndisturbedReconcile: an action is one step that may create any jobs with its name; rendering and applying the objects of an action are not modelled.
- Timestamps, and messages except where a comparison reads them.
- The template labels and annotations given to a new component, owner references, and the hash label.
- Module rendering, OCI pulls, server-side apply, gzip and JSON: rendering returns any objects, applying is a step that may fail, and an annotation decodes to any sets or not at all.
- The difference between nil and empty slices in reflect.DeepEqual on Sources.
- `updateStatus` of the Component controller, whose only call is commented out; readiness comes from an outside writer.
- RIPEMD-160, Argon2 and AES-GCM internals.
- The read errors of the database, and its timeouts.
- Update and GetByID of the variable model, JWT handling, middlewares, the other API handlers, the vela provider, and log streaming.
