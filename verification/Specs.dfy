/** The parts of a Jenkins spec that defaulting, validation and the deployment look at. */
module Specs {
  import opened Common
  import JenkinsOptions
  import Plugins
  import RbacNames
  import Services

  type EnvVar = JenkinsOptions.EnvVar

  datatype Resources =
    | Unset
    | Requirements(cpuRequest: string, memoryRequest: string, cpuLimit: string, memoryLimit: string)

  datatype Probe = Probe(path: string, port: string, delay: int, timeout: int, failures: int)

  datatype Mount = Mount(name: string, path: string)

  datatype Source =
    | EmptyDir
    | ConfigMap(name: string, optional: bool)
    | Secret(name: string, optional: bool)
    | Claim(name: string)
    | Other

  datatype Volume = Volume(name: string, source: Source)

  datatype Container = Container(
    name: string, image: string, pullPolicy: string, resources: Resources, command: seq<string>,
    env: seq<EnvVar>, mounts: seq<Mount>, liveness: Option<Probe>, readiness: Option<Probe>)

  /** Configuration as code; the secret and the ConfigMaps by name. */
  datatype Configuration = Configuration(
    enabled: bool, defaultConfig: bool, secret: string, configurations: seq<string>, enableAutoReload: bool)

  /** `emptied`: some map or list is there but has no entry, which is not the zero value. */
  datatype ServiceSpec = ServiceSpec(config: Services.Config, emptied: bool)

  const ZERO_SERVICE := ServiceSpec(Services.Config(map[], map[], "", 0, 0, "", []), false)

  datatype MasterValue = MasterValue(containers: seq<Container>, volumes: seq<Volume>, basePlugins: seq<Plugins.Plugin>)

  /** Everything but the master. */
  datatype Rest = Rest(
    imageRef: string, forceBasePluginsInstall: bool, service: ServiceSpec, jnlpService: ServiceSpec,
    roles: Option<seq<RbacNames.RoleRef>>, casc: Option<Configuration>, backupEnabled: bool)

  datatype SpecValue = SpecValue(master: Option<MasterValue>, rest: Rest)
}
