/** The cache server as the controller sees it: one active policy, changed only by accepted policy commands. */
module Server {
  import opened CacheTypes

  /** What the server measures at one moment. */
  datatype Reading = Reading(
    policies: seq<Policy>, missRatio: real, maxSize: nat, usedSize: nat, numObjects: nat, totalGets: nat, totalSets: nat)

  function StatusOf(active: Policy, reading: Option<Reading>): Option<PaperStatus> {
    if reading.None? then None
    else
      var r := reading.value;
      Some(PaperStatus(active, r.policies, r.missRatio, r.maxSize, r.usedSize, r.numObjects, r.totalGets, r.totalSets))
  }

  class PaperClient {
    var active: Policy

    constructor (initial: Policy)
      ensures active == initial
    {
      active := initial;
    }

    /** The server accepts or refuses; a refused command leaves the active policy as it was. */
    method SetPolicy(name: Policy, accepted: bool) returns (ok: bool)
      modifies this
      ensures ok == accepted
      ensures active == if ok then name else old(active)
    {
      if accepted {
        active := name;
      }
      return accepted;
    }

    /** The server's figures come from outside; the policy it reports is the active one. */
    method Status(reading: Option<Reading>) returns (reply: Option<PaperStatus>)
      ensures reply == StatusOf(active, reading)
    {
      if reading.None? {
        return None;
      }
      var r := reading.value;
      return Some(PaperStatus(active, r.policies, r.missRatio, r.maxSize, r.usedSize, r.numObjects, r.totalGets,
          r.totalSets));
    }
  }
}
