/** The custom resources the controllers read and write (apis/core/v1alpha1). */
module Resources {
  import opened Wrappers
  import opened Conditions

  datatype Resource = Resource(replicas: int, cpu: string, memory: string)
  datatype Port = Port(hostPort: int, targetPort: int, protocol: string)
  datatype Network = Network(exposed: bool, access: string, ports: seq<Port>)
  datatype Storage = Storage(size: string, name: string, mountPath: string)
  datatype EnvVar = EnvVar(name: string, value: string)

  /** Where a component's code comes from; a change of it calls for a new workflow run. */
  datatype Source = Source(sourceType: string, gitRepository: string, gitBranch: string, buildTool: string,
                           dockerfilePath: string, nixpackPath: string, ociRepository: string, tag: string,
                           command: seq<string>, workingDir: string, imagePullSecretsName: string)

  datatype Values = Values(resources: Resource, network: Network, source: Source, storage: seq<Storage>,
                           advanced: Option<string>)

  datatype Spec = Spec(componentType: string, ociRepository: string, ociTag: string, values: Values,
                       variables: seq<EnvVar>)

  datatype Template = Template(name: string, spec: Spec)

  datatype ComponentConditionType = Workflow | Ready
  datatype Reason =
    | WorkflowTriggered | WorkflowRunning | WorkflowFailed | WorkflowSucceed
    | Pending | Rendering | RenderingFailed | RenderingSucceed
    | Deploying | DeployingFailed | DeployingSucceed | Running

  type ComponentCondition = Condition<ComponentConditionType, Reason>
  type ComponentConditions = seq<ComponentCondition>

  /** A Component: its spec, the run-name label, the status conditions and the resource version. */
  datatype Component = Component(spec: Spec, run: Option<string>, conditions: ComponentConditions, version: nat)

  datatype ApplicationConditionType = ApplicationState
  datatype ApplicationReason = RenderingComponent | RenderingComponentFailed | Deployed
  type ApplicationCondition = Condition<ApplicationConditionType, ApplicationReason>

  /** One line of the Application's status: the component and its readiness. */
  datatype Entry = Entry(name: string, componentType: string, reason: Reason)

  datatype ApplicationStatus = ApplicationStatus(conditions: seq<ApplicationCondition>, components: seq<Entry>,
                                                 readyComponents: nat, totalComponents: nat)

  /** The Ready condition a controller builds from a reason: True exactly for Running. */
  function ReadyCondition(reason: Reason, message: string): ComponentCondition {
    Condition(Ready, if reason.Running? then True else False, reason, message)
  }

  function WorkflowCondition(status: Status, reason: Reason, message: string): ComponentCondition {
    Condition(Workflow, status, reason, message)
  }
}
