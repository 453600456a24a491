/** The typed records the intake decodes payloads into (intake/types.go and
    intake/host_meta.go), restricted to the fields the document builders read. */
module Records {
  import opened Json

  /** A metric point is a Go `[]float64`: `[timestamp, value, ...]`. */
  type Point = seq<real>

  /** One series of the v1 metrics payload. */
  datatype V1Metric = V1Metric(
    metric: string,
    points: seq<Point>,
    tags: seq<string>,
    host: string,
    device: string,
    kind: string,            // the JSON field `type`
    interval: int,
    sourceTypeName: string)

  /** A metric that carries only a name, as the filter tests build them. */
  function NamedMetric(name: string): V1Metric {
    V1Metric(name, [], [], "", "", "", 0, "")
  }

  /** The host metadata payload, restricted to what the builders and the
      process extraction read. */
  datatype HostMeta = HostMeta(
    uuid: string,            // UUID
    machine: string,         // SystemStats.Machine
    hostname: string,        // Meta.Hostname
    systemTags: seq<string>, // HostTags.System
    ip: string,              // Network.IP
    mac: string,             // Network.Mac
    snaps: seq<JValue>)      // Resources.Processes.Snaps
}
