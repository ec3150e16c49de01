/** The parts of an Astarte resource's specification that steer the operator. */
module Specs {

  datatype Option<+T> = None | Some(value: T) {
    function GetOr(default: T): T {
      match this
      case Some(v) => v
      case None => default
    }
  }

  /** Astarte's own components, as the operator names them. */
  datatype Component =
    | AppEngineAPI
    | DataUpdaterPlant
    | FlowComponent
    | Housekeeping
    | Pairing
    | RealmManagement
    | TriggerEngine
    | Dashboard

  /** The `deploy` flag of every component; a component that is not in the map left it unset. */
  type DeployFlags = map<Component, bool>

  function Flag(flags: DeployFlags, component: Component, default: bool): bool {
    if component in flags then flags[component] else default
  }

  /** Whether the operator deploys a component: Flow only on explicit request, the others unless told not to. */
  predicate IsDeployed(flags: DeployFlags, component: Component) {
    Flag(flags, component, component != FlowComponent)
  }

  datatype AstarteSpec = AstarteSpec(
    version: string,
    manualMaintenanceMode: bool,
    deploy: DeployFlags,
    deployCFSSL: Option<bool>,
    deployVerneMQ: Option<bool>,
    dupReplicas: Option<int>,
    dataQueueCount: Option<int>,
    caSecret: string,
    listenerSecret: Option<string>,
    podPriorities: bool,
    distributionChannel: string,
    housekeepingImage: string,
    housekeepingVersion: string,
    cfsslConfig: map<string, string>,
    dashboardConfig: map<string, string>
  ) {
    function Replicas(): int {
      dupReplicas.GetOr(1)
    }

    function Queues(): int {
      dataQueueCount.GetOr(128)
    }

    predicate Deploys(component: Component) {
      IsDeployed(deploy, component)
    }

    /** The Housekeeping image: an explicit one, or the one of the channel under the chosen tag. */
    function HousekeepingImage(): string {
      if housekeepingImage != "" then
        housekeepingImage
      else
        distributionChannel + "/astarte_housekeeping:" +
        (if housekeepingVersion != "" then housekeepingVersion else version)
    }
  }
}
