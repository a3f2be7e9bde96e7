/**
 The records the renderer receives from the cluster's RPC layer, reduced to the
 fields it reads. Numbers keep their wire types: `int64` fields are `Int64`,
 `float64` fields are `Float`.
 */
module Records {
  import opened Numbers

  /** One cluster node: identity, health flags, capacity and usage, free-text info. */
  datatype Node = Node(
    name: string,
    endpoint: string,
    bypass: bool,
    available: bool,
    cpuUsed: Float,
    initCpu: map<string, int>,
    memoryUsed: Int64,
    initMemory: Int64,
    volumeUsed: Int64,
    initVolume: map<string, Int64>,
    storageUsed: Int64,
    initStorage: Int64,
    info: string
  )

  /** Utilisation fractions of one node, with the diff annotations that explain discrepancies. */
  datatype NodeResource = NodeResource(
    name: string,
    cpuPercent: Float,
    memoryPercent: Float,
    storagePercent: Float,
    volumePercent: Float,
    diffs: seq<string>
  )

  /** One liveness notification from the node status stream; a non-empty `error` marks a failure. */
  datatype NodeStatusStreamMessage = NodeStatusStreamMessage(
    nodename: string,
    podname: string,
    alive: bool,
    error: string
  )
}
