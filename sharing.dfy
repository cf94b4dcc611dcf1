/**
 * Where the collector's guarantees meet the partitioner's: a consistent
 * project's shared ports never cross a partition (pkg/core/db.go:104-105
 * writes them both ways; pkg/core/entanglement.go:56-69 follows them), so
 * the halved count at pkg/core/entanglement.go:98-99 counts pairs of members.
 */
module Sharing {
  import opened Model
  import opened Partitioning
  import opened Scoring
  import opened Collect


  /**
   * A positive shared-port entry of a partition member names a member of the
   * same partition, along either direction: the member has an edge to it, and
   * by symmetry it has an edge back, so it cannot sit in an earlier partition.
   */
  lemma SharingStaysWithin(groups: Groups, dir: Direction, parts: seq<Partition>, i: nat, g: string, k: string)
    requires i < |parts| && Submap(groups, parts[i]) && PairwiseDisjoint(parts) && Closed(groups, dir, parts)
    requires SymmetricSharing(groups) && RelationsWithin(groups)
    requires g in parts[i] && Count(parts[i][g].sharedPortCount, k) > 0
    ensures k in parts[i]
  {
    assert k in groups && Edge(groups, dir, g, k);
    assert InFirst(parts, k, i + 1);
    var l :| 0 <= l < i + 1 && l < |parts| && k in parts[l];
    if l < i {
      SharedEdgeBack(groups, dir, g, k);
      assert false;
    }
  }

  /** Shared ports give an edge back, along either direction. */
  lemma SharedEdgeBack(groups: Groups, dir: Direction, g: string, k: string)
    requires SymmetricSharing(groups) && g in groups && k in groups
    requires Count(groups[g].sharedPortCount, k) > 0
    ensures Edge(groups, dir, k, g)
  {
    assert Count(groups[k].sharedPortCount, g) > 0;
  }

  /**
   * Every partition keeps its members' sharing among themselves, so its
   * pair count is the number of unordered pairs of members sharing ports.
   */
  lemma PartitionsShareWithin(groups: Groups, dir: Direction, parts: seq<Partition>, i: nat)
    requires IsPartitioning(groups, dir, parts) && SymmetricSharing(groups) && RelationsWithin(groups)
    requires NoSelfSharing(groups)
    requires i < |parts|
    ensures SharingWithin(parts[i]) && SymmetricSharing(parts[i])
    ensures PairCount(parts[i]) == |UnorderedPairs(SharedEntries(parts[i], parts[i].Keys))|
  {
    var part := parts[i];
    assert Submap(groups, part);
    forall g, k | g in part && k in part[g].sharedPortCount && part[g].sharedPortCount[k] > 0
      ensures k in part && k != g
    {
      SharingStaysWithin(groups, dir, parts, i, g, k);
    }
    PairCountCountsPairs(part);
  }
}
