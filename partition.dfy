/**
 * Splitting a project's security groups into partitions by flood fill
 * (pkg/core/entanglement.go:48-86).
 *
 * The program starts each partition at an arbitrary group that is not yet
 * partitioned and adds every group it can reach by following, from each
 * added group, the groups that group itself counts shared ports with or
 * references. Only these outgoing edges are followed. The order in which Go
 * iterates its maps is modelled by arbitrary choice (`:|`), so everything
 * proved here holds for every seed and every visiting order.
 *
 * The recursive closure of the program is modelled with a worklist and the
 * set of marked groups. `Direction` selects which edges are followed:
 * `Outgoing` is the program as written, `EitherWay` the corrected variant
 * that also follows incoming edges.
 */
module Partitioning {
  import opened Model

  datatype Direction = Outgoing | EitherWay

  /**
   * The test at entanglement.go:63: g's own maps hold a positive count for h.
   * A name missing from both maps counts zero, as Go's map lookup does, so
   * it is never followed; every followed reference is a relation.
   */
  predicate RefersTo(groups: Groups, g: string, h: string)
    requires g in groups
    ensures RefersTo(groups, g, h) ==> h in groups[g].sharedPortCount || h in groups[g].referenceCount
    ensures RefersTo(groups, g, h) && h in groups ==> RelationEdge(groups, g, h)
  {
    Count(groups[g].sharedPortCount, h) > 0 || Count(groups[g].referenceCount, h) > 0
  }

  /** An edge the flood fill follows from g to h. */
  predicate Edge(groups: Groups, dir: Direction, g: string, h: string) {
    && g in groups && h in groups
    && (RefersTo(groups, g, h) || (dir == EitherWay && RefersTo(groups, h, g)))
  }

  /**
   * Two groups are related when they share ports or one references the
   * other, in either direction, as the comment on `Partition` at
   * entanglement.go:30-32 describes.
   */
  predicate RelationEdge(groups: Groups, u: string, v: string) {
    && u in groups && v in groups
    && (|| Count(groups[u].sharedPortCount, v) > 0
        || Count(groups[u].referenceCount, v) > 0
        || Count(groups[v].referenceCount, u) > 0)
  }

  // ---------------------------------------------------------------------
  // What a partitioning is

  /** The partition holds the project's own group values under their keys. */
  ghost predicate Submap(groups: Groups, part: Partition) {
    forall k :: k in part ==> k in groups && part[k] == groups[k]
  }

  /**
   * c lists exactly the members, and every entry after the first is reached
   * by an edge from an earlier entry.
   */
  ghost predicate Chain(groups: Groups, dir: Direction, c: seq<string>, members: set<string>) {
    && |c| > 0
    && (forall x :: x in c <==> x in members)
    && (forall k :: 0 < k < |c| ==> LinkedFromEarlier(groups, dir, c, k))
  }

  /** Some entry before c[k] has an edge to c[k]. */
  ghost predicate LinkedFromEarlier(groups: Groups, dir: Direction, c: seq<string>, k: int)
    requires 0 <= k < |c|
  {
    exists j :: 0 <= j < k && Edge(groups, dir, c[j], c[k])
  }

  /** k is a key of one of the first n partitions. */
  ghost predicate InFirst(parts: seq<Partition>, k: string, n: int) {
    exists i {:trigger k in parts[i]} :: 0 <= i < n && i < |parts| && k in parts[i]
  }

  /** Every member is reachable from one seed member along edges between members. */
  ghost predicate Reached(groups: Groups, dir: Direction, members: set<string>) {
    exists c :: Chain(groups, dir, c, members)
  }

  ghost predicate NonEmptySubmaps(groups: Groups, parts: seq<Partition>) {
    forall i :: 0 <= i < |parts| ==> |parts[i]| > 0 && Submap(groups, parts[i])
  }

  ghost predicate PairwiseDisjoint(parts: seq<Partition>) {
    forall i, j, k {:trigger k in parts[i], k in parts[j]} :: 0 <= i < j < |parts| && k in parts[i] ==> k !in parts[j]
  }

  ghost predicate Covers(groups: Groups, parts: seq<Partition>) {
    forall k :: k in groups ==> InFirst(parts, k, |parts|)
  }

  /** An edge out of partition i ends in partition i or in an earlier one. */
  ghost predicate Closed(groups: Groups, dir: Direction, parts: seq<Partition>) {
    forall i, g, h {:trigger Edge(groups, dir, g, h), g in parts[i]} :: 0 <= i < |parts| && g in parts[i] && Edge(groups, dir, g, h) ==>
      InFirst(parts, h, i + 1)
  }

  ghost predicate AllReached(groups: Groups, dir: Direction, parts: seq<Partition>) {
    forall i :: 0 <= i < |parts| ==> Reached(groups, dir, parts[i].Keys)
  }

  /**
   * parts is a possible result of the flood fill: non-empty, disjoint
   * partitions covering all groups, each one closed under the followed edges
   * (up to the partitions made before it) and reached from one seed.
   */
  ghost predicate IsPartitioning(groups: Groups, dir: Direction, parts: seq<Partition>) {
    && NonEmptySubmaps(groups, parts)
    && PairwiseDisjoint(parts)
    && Covers(groups, parts)
    && Closed(groups, dir, parts)
    && AllReached(groups, dir, parts)
  }

  /** No relation edge joins two different partitions. */
  ghost predicate Separated(groups: Groups, parts: seq<Partition>) {
    forall i, j, g, h {:trigger RelationEdge(groups, g, h), g in parts[i], h in parts[j]} ::
      0 <= i < |parts| && 0 <= j < |parts| && i != j && g in parts[i] && h in parts[j] ==>
      !RelationEdge(groups, g, h)
  }

  /** `partitioned` is exactly the set of keys of the partitions made so far. */
  ghost predicate Tracks(parts: seq<Partition>, partitioned: set<string>) {
    forall k :: k in partitioned <==> InFirst(parts, k, |parts|)
  }

  // ---------------------------------------------------------------------
  // The flood fill

  lemma ChainExtend(groups: Groups, dir: Direction, c: seq<string>, members: set<string>, g: string, h: string)
    requires Chain(groups, dir, c, members)
    requires g in members && h !in members && Edge(groups, dir, g, h)
    ensures Chain(groups, dir, c + [h], members + {h})
  {
    var j :| 0 <= j < |c| && c[j] == g;
    var c' := c + [h];
    forall k | 0 < k < |c'|
      ensures LinkedFromEarlier(groups, dir, c', k)
    {
      if k == |c| {
        assert c'[j] == g && c'[k] == h;
      } else {
        assert LinkedFromEarlier(groups, dir, c, k);
        var j' :| 0 <= j' < k && Edge(groups, dir, c[j'], c[k]);
        assert c'[j'] == c[j'] && c'[k] == c[k];
      }
    }
  }

  /**
   * The scan of entanglement.go:62-68 for the group g: every group h that g
   * has an edge to and that is not yet marked is marked and added to the
   * partition. Returns the groups it added.
   */
  method VisitNeighbours(groups: Groups, dir: Direction, g: string, part: Partition, marked: set<string>,
                         ghost partitioned: set<string>, ghost seed: string, ghost order: seq<string>)
    returns (part': Partition, marked': set<string>, added: set<string>, ghost order': seq<string>)
    requires WellKeyed(groups) && g in part
    requires seed in part && Submap(groups, part) && part.Keys !! partitioned
    requires marked == partitioned + part.Keys
    requires Chain(groups, dir, order, part.Keys) && order[0] == seed
    ensures seed in part' && Submap(groups, part') && part'.Keys !! partitioned
    ensures marked' == partitioned + part'.Keys
    ensures Chain(groups, dir, order', part'.Keys) && order'[0] == seed
    ensures marked <= marked' && added == marked' - marked && added <= groups.Keys
    ensures forall h :: Edge(groups, dir, g, h) ==> h in marked'
  {
    part', marked', added, order' := part, marked, {}, order;
    var group := groups[g];
    var others := groups.Keys;
    while others != {}
      invariant others <= groups.Keys
      invariant seed in part' && Submap(groups, part') && part'.Keys !! partitioned
      invariant marked' == partitioned + part'.Keys
      invariant Chain(groups, dir, order', part'.Keys) && order'[0] == seed
      invariant marked <= marked' && added == marked' - marked && added <= groups.Keys
      invariant forall h :: h in groups && h !in others && Edge(groups, dir, g, h) ==> h in marked'
    {
      var h :| h in others;
      others := others - {h};
      var other := groups[h];
      assert other.name == h && group.name == g;
      var linked :=
        || Count(group.sharedPortCount, other.name) > 0
        || Count(group.referenceCount, other.name) > 0
        || (dir == EitherWay &&
            (Count(other.sharedPortCount, group.name) > 0 || Count(other.referenceCount, group.name) > 0));
      assert linked <==> Edge(groups, dir, g, h);
      if linked && other.name !in marked' {
        ChainExtend(groups, dir, order', part'.Keys, g, h);
        part' := part'[other.name := groups[other.name]];
        marked' := marked' + {other.name};
        added := added + {other.name};
        order' := order' + [other.name];
      }
    }
  }

  /**
   * `addRecursively(seed)` of entanglement.go:56-69: adds the seed and every
   * group reachable from it through groups not yet partitioned. Each group is
   * marked before its edges are scanned and is added only when unmarked, so
   * no group is added twice and cycles and self-references terminate.
   */
  method AddConnected(groups: Groups, dir: Direction, seed: string, partitioned: set<string>)
    returns (part: Partition, marked: set<string>, ghost order: seq<string>)
    requires WellKeyed(groups)
    requires seed in groups && seed !in partitioned
    ensures seed in part && Submap(groups, part)
    ensures part.Keys !! partitioned
    ensures marked == partitioned + part.Keys
    ensures forall g, h :: g in part && Edge(groups, dir, g, h) ==> h in marked
    ensures Chain(groups, dir, order, part.Keys) && order[0] == seed
  {
    part := map[seed := groups[seed]];
    marked := partitioned + {seed};
    order := [seed];
    var work := {seed};
    while work != {}
      invariant work <= part.Keys
      invariant seed in part && Submap(groups, part) && part.Keys !! partitioned
      invariant marked == partitioned + part.Keys
      invariant forall g, h :: g in part && g !in work && Edge(groups, dir, g, h) ==> h in marked
      invariant Chain(groups, dir, order, part.Keys) && order[0] == seed
      decreases groups.Keys - marked, work
    {
      var g :| g in work;
      var added;
      part, marked, added, order := VisitNeighbours(groups, dir, g, part, marked, partitioned, seed, order);
      work := (work - {g}) + added;
    }
  }

  /** The keys of `parts + [part]` are those of `parts` and those of `part`. */
  lemma InFirstAppend(parts: seq<Partition>, part: Partition, k: string, n: int)
    requires 0 <= n <= |parts|
    ensures InFirst(parts + [part], k, n) <==> InFirst(parts, k, n)
    ensures InFirst(parts + [part], k, |parts| + 1) <==> InFirst(parts, k, |parts|) || k in part
  {
    var ps := parts + [part];
    if InFirst(parts, k, |parts|) {
      var i :| 0 <= i < |parts| && k in parts[i];
      assert k in ps[i];
    }
    if InFirst(parts, k, n) {
      var i :| 0 <= i < n && k in parts[i];
      assert k in ps[i];
    }
    if InFirst(ps, k, n) {
      var i :| 0 <= i < n && i < |ps| && k in ps[i];
      assert k in parts[i];
    }
    if k in part {
      assert k in ps[|parts|];
    }
    if InFirst(ps, k, |parts| + 1) && !(k in part) {
      var i :| 0 <= i < |parts| + 1 && i < |ps| && k in ps[i];
      assert i < |parts| && k in parts[i];
    }
  }

  lemma AppendTracks(parts: seq<Partition>, partitioned: set<string>, part: Partition)
    requires Tracks(parts, partitioned)
    ensures Tracks(parts + [part], partitioned + part.Keys)
  {
    forall k
      ensures k in partitioned + part.Keys <==> InFirst(parts + [part], k, |parts| + 1)
    {
      InFirstAppend(parts, part, k, |parts|);
    }
  }

  lemma AppendDisjoint(parts: seq<Partition>, partitioned: set<string>, part: Partition)
    requires Tracks(parts, partitioned) && PairwiseDisjoint(parts)
    requires part.Keys !! partitioned
    ensures PairwiseDisjoint(parts + [part])
  {
    var ps := parts + [part];
    var n := |parts|;
    forall i, j, k | 0 <= i < j < |ps| && k in ps[i]
      ensures k !in ps[j]
    {
      assert k in parts[i];
      if j == n {
        assert InFirst(parts, k, n);
      } else {
        assert k !in parts[j];
      }
    }
  }

  lemma AppendClosed(groups: Groups, dir: Direction, parts: seq<Partition>, partitioned: set<string>,
                     part: Partition)
    requires Tracks(parts, partitioned) && Closed(groups, dir, parts)
    requires forall g, h :: g in part && Edge(groups, dir, g, h) ==> h in partitioned + part.Keys
    ensures Closed(groups, dir, parts + [part])
  {
    var ps := parts + [part];
    var n := |parts|;
    forall i, g, h | 0 <= i < |ps| && g in ps[i] && Edge(groups, dir, g, h)
      ensures InFirst(ps, h, i + 1)
    {
      if i < n {
        assert g in parts[i];
        InFirstAppend(parts, part, h, i + 1);
      } else {
        assert g in part;
        InFirstAppend(parts, part, h, n);
      }
    }
  }

  lemma AppendReached(groups: Groups, dir: Direction, parts: seq<Partition>, part: Partition)
    requires NonEmptySubmaps(groups, parts) && AllReached(groups, dir, parts)
    requires |part| > 0 && Submap(groups, part) && Reached(groups, dir, part.Keys)
    ensures NonEmptySubmaps(groups, parts + [part]) && AllReached(groups, dir, parts + [part])
  {
    var ps := parts + [part];
    forall i | 0 <= i < |ps|
      ensures |ps[i]| > 0 && Submap(groups, ps[i]) && Reached(groups, dir, ps[i].Keys)
    {
      if i < |parts| {
        assert ps[i] == parts[i];
      }
    }
  }

  /**
   * The loop of entanglement.go:52-85: start a partition at some group not
   * yet partitioned, fill it, append it; return once no group is left.
   */
  method PartitionGroups(groups: Groups, dir: Direction) returns (parts: seq<Partition>)
    requires WellKeyed(groups)
    ensures IsPartitioning(groups, dir, parts)
  {
    parts := [];
    var partitioned: set<string> := {};
    while true
      invariant partitioned <= groups.Keys && Tracks(parts, partitioned)
      invariant NonEmptySubmaps(groups, parts) && PairwiseDisjoint(parts)
      invariant Closed(groups, dir, parts) && AllReached(groups, dir, parts)
      decreases groups.Keys - partitioned
    {
      var part: Partition := map[];
      var remaining := groups.Keys - partitioned;
      if remaining != {} {
        // the first unpartitioned group in map order
        var seed :| seed in remaining;
        var marked;
        ghost var order;
        part, marked, order := AddConnected(groups, dir, seed, partitioned);
        assert seed in part.Keys;
        AppendTracks(parts, partitioned, part);
        AppendDisjoint(parts, partitioned, part);
        AppendClosed(groups, dir, parts, partitioned, part);
        AppendReached(groups, dir, parts, part);
        partitioned := marked;
      }
      if |part| > 0 {
        parts := parts + [part];
      } else {
        assert partitioned == groups.Keys;
        return;
      }
    }
  }

  /** `Project.PartitionSecurityGroups` as written: outgoing edges only. */
  method PartitionSecurityGroups(p: Project) returns (result: seq<Partition>)
    requires WellKeyed(p.groups)
    ensures IsPartitioning(p.groups, Outgoing, result)
  {
    result := PartitionGroups(p.groups, Outgoing);
  }

  // ---------------------------------------------------------------------
  // The corrected partitioner

  /** A relation edge between an earlier and a later partition contradicts closure. */
  lemma NoEdgeAcross(groups: Groups, parts: seq<Partition>, i: int, j: int, g: string, h: string)
    requires PairwiseDisjoint(parts) && Closed(groups, EitherWay, parts)
    requires 0 <= i < j < |parts| && g in parts[i] && h in parts[j]
    ensures !RelationEdge(groups, g, h) && !RelationEdge(groups, h, g)
  {
    forall l | 0 <= l < i + 1 ensures h !in parts[l] {
      assert l < j;
    }
    assert !InFirst(parts, h, i + 1);
    assert !Edge(groups, EitherWay, g, h);
  }

  /** With edges followed both ways, closure keeps every relation edge inside one partition. */
  lemma EitherWaySeparates(groups: Groups, parts: seq<Partition>)
    requires IsPartitioning(groups, EitherWay, parts)
    ensures Separated(groups, parts)
  {
    forall i, j, g, h | 0 <= i < |parts| && 0 <= j < |parts| && i != j && g in parts[i] && h in parts[j]
      ensures !RelationEdge(groups, g, h)
    {
      if i < j {
        NoEdgeAcross(groups, parts, i, j, g, h);
      } else {
        NoEdgeAcross(groups, parts, j, i, h, g);
      }
    }
  }

  /**
   * The partitioning the comment on `Partition` (entanglement.go:30-32)
   * describes: connected components under the relation edge, which also
   * joins a group to the groups that reference it.
   */
  method PartitionConnected(p: Project) returns (result: seq<Partition>)
    requires WellKeyed(p.groups)
    ensures IsPartitioning(p.groups, EitherWay, result)
    ensures Separated(p.groups, result)
  {
    result := PartitionGroups(p.groups, EitherWay);
    EitherWaySeparates(p.groups, result);
  }
}
