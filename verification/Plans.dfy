/** The container plans of a run, which PLAN produces and VALIDATE, GATE and EXECUTE read. */
module Plans {
  import opened ContainerSpecs

  /**
   One entry of `servicePlans`, with what the service's document adds: the deploy plugin it binds ("" for none)
   and `removeVolumesOnDelete`.
   */
  datatype ServicePlan = ServicePlan(id: string, spec: ContainerSpec, plugin: string, removeVolumes: bool)

  /** `servicePlans` is a record: every service id occurs once. */
  ghost predicate DistinctIds(services: seq<ServicePlan>) {
    forall i, j :: 0 <= i < j < |services| ==> services[i].id != services[j].id
  }
}
