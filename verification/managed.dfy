/** What the generic reconciler hands to each controller: a managed object whose
    dynamic type the controller checks, plus the time unit of its timeouts. */
module Managed {
  import DeploymentApi
  import OrganizationApi

  /** A managed resource; each controller type-asserts it to its own kind. */
  datatype Object =
    | DeploymentObject(dep: DeploymentApi.Deployment)
    | OrganizationObject(org: OrganizationApi.Organization)

  /** The label map `Update` returns for indexing. */
  type Labels = map<string, string>

  /** Durations in nanoseconds, as Go's `time.Duration`. */
  const Second: nat := 1_000_000_000
  const Minute: nat := 60 * Second
}
