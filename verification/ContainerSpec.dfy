/**
 The container specification that deploy plugins emit and the orchestrator
 validates, gates and executes (packages/orchestrator/src/validate/container-spec.ts).
 Optional arrays and strings of the source are modelled by their empty value,
 which is how every consumer reads them (`?? []`, `?? false`).
 */
module ContainerSpecs {

  /** Label keys. The keys the orchestrator itself writes are constructors, any other key is `Other`. */
  datatype LabelKey =
    | Managed                // wanfw.managed
    | ServiceLabel           // wanfw.service
    | PlanLabel              // wanfw.plan
    | ConfigHash             // wanfw.confighash
    | CoreLabel              // wanfw.core
    | RemoveVolumesOnDelete  // wanfw.removeVolumesOnDelete
    | Other(name: string)

  type Labels = map<LabelKey, string>

  datatype MountKind = VolumeMount | BindMount

  datatype MountSpec = MountSpec(kind: MountKind, source: string, target: string, readOnly: bool)

  /** The fields that never need a grant and never enter the approval projection. */
  datatype Baseline = Baseline(
    cmd: seq<string>,
    entrypoint: seq<string>,
    env: map<string, string>,
    securityOpt: seq<string>,
    user: string,
    readOnlyRootfs: bool,
    memory: string,
    cpus: string,
    restart: string)

  const NO_BASELINE := Baseline([], [], map[], [], "", false, "", "", "")

  datatype ContainerSpec = ContainerSpec(
    image: string,
    mounts: seq<MountSpec>,
    devices: seq<string>,
    networks: seq<string>,
    networkMode: string,
    ports: seq<int>,
    capAdd: seq<string>,
    privileged: bool,
    labels: Labels,
    baseline: Baseline)
}
