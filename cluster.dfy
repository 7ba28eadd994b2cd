/**
 * The part of the coordination service's state that the discovery code reads
 * and writes: the instance configuration records of one cluster, keyed by
 * instance name. A name is "in the cluster's instance list" exactly when it
 * has a record here.
 */
module Cluster {
  import opened Wrappers

  /** An instance configuration record: host name and port text, either of which may be unset. */
  datatype InstanceConfig = InstanceConfig(hostName: Option<string>, port: Option<string>)

  /** The cluster's instance records, by instance name. */
  type ConfigTable = map<string, InstanceConfig>

  /** The coordination service's copy of the table, shared by every participant. The spectator is handed its current table on each callback. */
  class InstanceStore {
    var configs: ConfigTable

    constructor (configs: ConfigTable)
      ensures this.configs == configs
    {
      this.configs := configs;
    }
  }
}
