/** Option and Result, used for the source's nil results and fatal errors. */
module Wrappers {
  datatype Option<+T> = None | Some(value: T)

  datatype Result<+T, +E> = Success(value: T) | Failure(error: E)
}

/**
 * The relation snapshot of the entanglement exporter: projects, their
 * security groups, and the pairwise counts between groups
 * (pkg/core/db.go:24-38).
 *
 * Go keeps `*SecurityGroup` pointers in the maps and updates them in place;
 * here a group is a value and an update reassigns the map entry. Counts are
 * unbounded naturals (the source's `uint64`).
 */
module Model {
  /** One security group of a project. */
  datatype SecurityGroup = SecurityGroup(
    name: string,
    portCount: nat,
    // ports shared with another group, keyed by that group's name
    sharedPortCount: map<string, nat>,
    // rules of this group that reference another group, keyed by its name
    referenceCount: map<string, nat>)

  /** The groups of one project, keyed by group name. */
  type Groups = map<string, SecurityGroup>

  /** A set of interconnected groups, keyed by group name (entanglement.go:33). */
  type Partition = map<string, SecurityGroup>

  datatype Project = Project(uuid: string, groups: Groups)

  /** Reading a Go map: a missing key reads as zero. */
  function Count(m: map<string, nat>, key: string): nat {
    if key in m then m[key] else 0
  }

  /** Every group is stored under its own name, as the data collector builds it. */
  ghost predicate WellKeyed(groups: Groups) {
    forall k :: k in groups ==> groups[k].name == k
  }

  /** Shared-port counts agree in both directions between groups. */
  ghost predicate SymmetricSharing(groups: Groups) {
    forall g, h :: g in groups && h in groups ==>
      Count(groups[g].sharedPortCount, h) == Count(groups[h].sharedPortCount, g)
  }

  /**
   * No group counts ports shared with its own name. This holds when group
   * names are unique within the project; two groups of the same name merge
   * under one key and their shared ports become an entry for that key.
   */
  ghost predicate NoSelfSharing(groups: Groups) {
    forall g :: g in groups ==> Count(groups[g].sharedPortCount, g) == 0
  }
}
