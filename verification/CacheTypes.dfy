/** Values exchanged with the cache server and kept by the controller. */
module CacheTypes {
  type Policy = string

  /** Nanoseconds on one monotone clock. */
  type Time = int

  datatype Option<+T> = None | Some(value: T)

  /** The server's answer to a status request. */
  datatype PaperStatus = PaperStatus(
    policy: Policy, policies: seq<Policy>, missRatio: real, maxSize: nat,
    usedSize: nat, numObjects: nat, totalGets: nat, totalSets: nat)

  datatype MetricsSnapshot = MetricsSnapshot(
    timestamp: Time, currentPolicy: Policy, missRatio: real, cacheSize: nat,
    usedSize: nat, numObjects: nat, totalGets: nat, totalSets: nat)

  datatype CacheAccess = CacheAccess(key: string, timestamp: Time, isHit: bool)
}
