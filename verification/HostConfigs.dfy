/** The WasmCloudHostConfig resource, with the fields the modelled code reads. */
module HostConfigs {
  import opened Wrappers

  /** A u16. */
  type Port = n: int | 0 <= n < 0x1_0000

  /** An entry of certificates.authorities: a pod volume of which two sources are looked at. */
  datatype Authority = Authority(
    name: string,
    secret: Option<Option<string>>,
    configMap: Option<Option<string>>)

  /** A pod volume: its name and where its contents come from. */
  datatype Volume = Volume(name: string, source: VolumeSource)

  datatype VolumeSource = FromSecret(secretName: string) | FromConfigMap(configMapName: string) | OtherSource

  /**
   The address and port are read by the connections to a lattice, which appear as functions of the
   whole configuration.
   */
  datatype HostConfig = HostConfig(
    name: Option<string>,
    namespace: string,
    lattice: string,
    hostLabels: Option<map<string, string>>,
    natsAddress: string,
    natsClientPort: Port,
    secretName: Option<string>,
    authorities: Option<seq<Authority>>,
    podAdditions: Option<Option<seq<Volume>>>)
  {
    /** The name, or the empty string where there is none. */
    function NameAny(): string {
      match name
      case Some(n) => n
      case None => ""
    }
  }

  const UNNAMED := HostConfig(None, "", "", None, "", 0, None, None, None)

  /** A configuration as the API server hands it out: it has a name. */
  type NamedConfig = cfg: HostConfig | cfg.name.Some? witness UNNAMED.(name := Some(""))
}
