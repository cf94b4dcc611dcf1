/**
 * Two groups where the flood fill of entanglement.go:56-69 gives different
 * partitions, and different total entanglement, depending on which group Go's
 * map iteration visits first.
 *
 * Group B has a rule referencing group A; each has one port; nothing else
 * is related. The flood fill follows only the groups a member itself refers to.
 * Seeded at B, it reaches A, and the one partition {A, B} scores 1 (the
 * reference B -> A times A's port). Seeded at A, it finds nothing (A refers
 * to no group), so A and B end up in partitions of their own and the
 * reference counts nowhere: both score 0. The corrected flood fill, which
 * also follows incoming edges, always keeps A and B together.
 */
module Findings {
  import opened Model
  import opened Partitioning
  import opened Scoring
  import opened Metrics

  const GroupA: SecurityGroup := SecurityGroup("A", 1, map[], map[])
  const GroupB: SecurityGroup := SecurityGroup("B", 1, map[], map["A" := 1])
  const Example: Groups := map["A" := GroupA, "B" := GroupB]

  /** The only edge the program follows is B -> A. */
  lemma ExampleEdges()
    ensures forall g, h :: Edge(Example, Outgoing, g, h) ==> g == "B" && h == "A"
    ensures Edge(Example, Outgoing, "B", "A")
  {
    assert Count(Example["B"].referenceCount, "A") == 1;
  }

  /** Seeded at A, the first partition is A alone: no chain leaves A. */
  lemma SeedAStaysAlone(c: seq<string>, members: set<string>)
    requires Chain(Example, Outgoing, c, members) && c[0] == "A"
    ensures members == {"A"}
  {
    ExampleEdges();
    assert |c| > 1 ==> LinkedFromEarlier(Example, Outgoing, c, 1);
    assert |c| == 1;
    assert c == ["A"];
  }

  /** The outer loop of entanglement.go:72-83 when Go's map iteration yields A first. */
  method OutcomeSeededAtA() returns (parts: seq<Partition>)
    ensures parts == [map["A" := GroupA], map["B" := GroupB]]
  {
    var first, marked, order := AddConnected(Example, Outgoing, "A", {});
    SeedAStaysAlone(order, first.Keys);
    assert first == map["A" := GroupA];
    var second, marked', order' := AddConnected(Example, Outgoing, "B", marked);
    assert second.Keys == {"B"};
    assert second == map["B" := GroupB];
    parts := [first, second];
  }

  /** The same loop when Go's map iteration yields B first. */
  method OutcomeSeededAtB() returns (parts: seq<Partition>)
    ensures parts == [Example]
  {
    var first, marked, order := AddConnected(Example, Outgoing, "B", {});
    ExampleEdges();
    assert "A" in first;
    assert first.Keys == Example.Keys;
    assert first == Example;
    parts := [first];
  }

  lemma SumOfSingle(f: Factor)
    ensures SumOf({f}) == f.value
  {
    assert Pick({f}) == f;
    assert {f} - {f} == {};
  }

  /** The scores of the three partitions that occur. */
  lemma ExampleScores()
    ensures ScoreValue(map["A" := GroupA]) == 0
    ensures ScoreValue(map["B" := GroupB]) == 0
    ensures ScoreValue(Example) == 1
  {
    var a: Partition := map["A" := GroupA];
    var b: Partition := map["B" := GroupB];
    assert SharedEntries(a, a.Keys) == {};
    assert ReferenceFactors(a, a.Keys) == {} by {
      assert !Qualifies(a, "A", "A");
    }
    assert SharedEntries(b, b.Keys) == {};
    assert ReferenceFactors(b, b.Keys) == {} by {
      assert Count(GroupB.referenceCount, "B") == 0;
      assert !Qualifies(b, "B", "B");
    }
    assert SharedEntries(Example, Example.Keys) == {};
    var f := Factor(1, Referencing("B", 1, "A", 1));
    assert ReferenceFactors(Example, Example.Keys) == {f} by {
      assert Qualifies(Example, "B", "A") && ReferenceFactor(Example, "B", "A") == f;
      assert Count(GroupB.referenceCount, "B") == 0;
      forall g, o | g in Example && o in Example && Qualifies(Example, g, o)
        ensures g == "B" && o == "A"
      {
      }
    }
    SumOfSingle(f);
  }

  /**
   * Seeded at A, the reference B -> A runs between two partitions, and the
   * project's total entanglement is 0; seeded at B it is 1.
   */
  lemma SeedOrderChangesTotal()
    ensures !Separated(Example, [map["A" := GroupA], map["B" := GroupB]])
    ensures ScoresOf([0, 0], [map["A" := GroupA], map["B" := GroupB]]) && Sum([0, 0]) == 0
    ensures ScoresOf([1], [Example]) && Sum([1]) == 1
  {
    var split := [map["A" := GroupA], map["B" := GroupB]];
    assert RelationEdge(Example, "B", "A") by {
      assert Count(Example["B"].referenceCount, "A") == 1;
    }
    assert "B" in split[1] && "A" in split[0];
    ExampleScores();
  }

  /** A partition other than the one holding A and B would be empty. */
  lemma OnlyPart(parts: seq<Partition>, i: nat, n: nat)
    requires NonEmptySubmaps(Example, parts) && PairwiseDisjoint(parts)
    requires i < |parts| && "A" in parts[i] && "B" in parts[i] && n < |parts|
    ensures n == i
  {
    assert |parts[n].Keys| > 0;
    var k :| k in parts[n];
    assert k in Example;
    assert k in parts[i];
  }

  /** A separated covering of the example puts A and B in the same partition. */
  lemma PairTogether(parts: seq<Partition>) returns (i: nat)
    requires Covers(Example, parts) && Separated(Example, parts)
    ensures i < |parts| && "A" in parts[i] && "B" in parts[i]
  {
    assert "A" in Example && "B" in Example;
    assert InFirst(parts, "A", |parts|) && InFirst(parts, "B", |parts|);
    i :| 0 <= i < |parts| && "A" in parts[i];
    var j :| 0 <= j < |parts| && "B" in parts[j];
    assert RelationEdge(Example, "B", "A") by {
      assert Count(Example["B"].referenceCount, "A") == 1;
    }
    assert i == j;
  }

  /** A non-empty submap of the example holding A and B is the example itself. */
  lemma WholeExample(part: Partition)
    requires Submap(Example, part) && "A" in part && "B" in part
    ensures part == Example
  {
    assert part.Keys == Example.Keys;
  }

  /** Any separated partitioning of the example keeps A and B in its one partition. */
  lemma SeparatedJoinsPair(parts: seq<Partition>)
    requires NonEmptySubmaps(Example, parts) && PairwiseDisjoint(parts)
    requires Covers(Example, parts) && Separated(Example, parts)
    ensures parts == [Example]
  {
    var i := PairTogether(parts);
    OnlyPart(parts, i, 0);
    OnlyPart(parts, i, |parts| - 1);
    WholeExample(parts[0]);
  }

  /** The corrected flood fill has one outcome here: A and B together. */
  lemma CorrectedJoinsPair(parts: seq<Partition>)
    requires IsPartitioning(Example, EitherWay, parts)
    ensures parts == [Example]
  {
    EitherWaySeparates(Example, parts);
    SeparatedJoinsPair(parts);
  }
}
