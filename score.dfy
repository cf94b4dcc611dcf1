/**
 * The entanglement score of one partition (pkg/core/entanglement.go:35-46,
 * 88-129).
 *
 * Two kinds of factor contribute. The shared-port factor counts the positive
 * shared-port entries of the partition's groups and halves the count, since
 * every shared pair is recorded in both groups. A reference factor is emitted
 * for each ordered pair (g, o) of members where g has rules referencing o and
 * o has ports; its value is their product. The score is the sum of the
 * factor values. Map iteration order is arbitrary, so the order of the
 * reference factors is specified only as a set without repetitions.
 */
module Scoring {
  import opened Model

  /** What a factor's log text says, with its arguments; the wording is left out. */
  datatype Reason =
    | SharedPorts(pairs: nat)
    | Referencing(group: string, rules: nat, other: string, ports: nat)

  datatype Factor = Factor(value: nat, reason: Reason)

  datatype Score = Score(value: nat, factors: seq<Factor>)

  // ---------------------------------------------------------------------
  // The shared-port factor

  /** The positive shared-port entries in the groups g of row g, for the keys in `keys`. */
  ghost function SharedRow(part: Partition, g: string, keys: set<string>): (r: set<(string, string)>)
    requires g in part
    ensures forall e :: e in r ==> e.0 == g && e.1 in keys
  {
    set k | k in keys && k in part[g].sharedPortCount && part[g].sharedPortCount[k] > 0 :: (g, k)
  }

  /** The positive shared-port entries (g, k) of the members g in `from`; k need not be a member. */
  ghost function SharedEntries(part: Partition, from: set<string>): (r: set<(string, string)>)
    ensures forall e :: e in r ==> e.0 in from && e.0 in part
  {
    set g, k | g in from && g in part && k in part[g].sharedPortCount && part[g].sharedPortCount[k] > 0 :: (g, k)
  }

  /** The halved count of entanglement.go:90-99. */
  ghost function PairCount(part: Partition): nat {
    |SharedEntries(part, part.Keys)| / 2
  }

  /** The shared-port factor, present exactly when the halved count is positive. */
  ghost function SharedHead(part: Partition): seq<Factor> {
    if PairCount(part) > 0 then [Factor(PairCount(part), SharedPorts(PairCount(part)))] else []
  }

  // ---------------------------------------------------------------------
  // The reference factors

  /**
   * The test of entanglement.go:112. It looks up the rule count by the
   * referenced group's own name; where every group is stored under its name,
   * that is the count for its key.
   */
  predicate Qualifies(part: Partition, g: string, o: string)
    requires g in part && o in part
    ensures WellKeyed(part) ==>
      (Qualifies(part, g, o) <==> Count(part[g].referenceCount, o) > 0 && part[o].portCount > 0)
  {
    Count(part[g].referenceCount, part[o].name) > 0 && part[o].portCount > 0
  }

  /**
   * The factor of entanglement.go:113-119 for the ordered pair (g, o): its
   * value is the product its reason reports, and it is positive exactly when
   * the pair qualifies.
   */
  function ReferenceFactor(part: Partition, g: string, o: string): (f: Factor)
    requires g in part && o in part
    ensures f.reason.Referencing? && f.reason.group == g && f.reason.other == o
    ensures f.value == f.reason.rules * f.reason.ports
    ensures f.value > 0 <==> Qualifies(part, g, o)
  {
    var rules := Count(part[g].referenceCount, part[o].name);
    Factor(part[o].portCount * rules, Referencing(g, rules, o, part[o].portCount))
  }

  /** The reference factors of g against the members in `others`. */
  ghost function RowFactors(part: Partition, g: string, others: set<string>): (r: set<Factor>)
    requires g in part
    ensures forall f :: f in r ==> f.reason.Referencing? && f.reason.group == g && f.reason.other in others
  {
    set o | o in others && o in part && Qualifies(part, g, o) :: ReferenceFactor(part, g, o)
  }

  /** The reference factors of the members g in `from`. */
  ghost function ReferenceFactors(part: Partition, from: set<string>): (r: set<Factor>)
    ensures forall f :: f in r ==> f.reason.Referencing? && f.reason.group in from
  {
    set g, o | g in from && g in part && o in part && Qualifies(part, g, o) :: ReferenceFactor(part, g, o)
  }

  // ---------------------------------------------------------------------
  // Sums

  /** Sum of the factor values, in sequence order. */
  function Total(fs: seq<Factor>): nat {
    if fs == [] then 0 else Total(fs[..|fs| - 1]) + fs[|fs| - 1].value
  }

  ghost function Pick(fs: set<Factor>): (f: Factor)
    requires fs != {}
    ensures f in fs
  {
    var f :| f in fs; f
  }

  /** Sum of the values of a set of factors. */
  ghost function SumOf(fs: set<Factor>): nat {
    if fs == {} then 0 else var f := Pick(fs); f.value + SumOf(fs - {f})
  }

  /** The score a partition receives, whatever order the maps are iterated in. */
  ghost function ScoreValue(part: Partition): nat {
    PairCount(part) + SumOf(ReferenceFactors(part, part.Keys))
  }

  predicate Distinct(fs: seq<Factor>) {
    forall i, j :: 0 <= i < j < |fs| ==> fs[i] != fs[j]
  }

  /** Removing any one factor from a set takes exactly its value off the sum. */
  lemma {:induction false} SumOfRemove(fs: set<Factor>, f: Factor)
    requires f in fs
    ensures SumOf(fs) == f.value + SumOf(fs - {f})
    decreases |fs|
  {
    var p := Pick(fs);
    if p != f {
      calc {
        SumOf(fs);
        p.value + SumOf(fs - {p});
        { SumOfRemove(fs - {p}, f); }
        p.value + f.value + SumOf(fs - {p} - {f});
        { assert fs - {p} - {f} == fs - {f} - {p}; }
        f.value + (p.value + SumOf(fs - {f} - {p}));
        { SumOfRemove(fs - {f}, p); }
        f.value + SumOf(fs - {f});
      }
    }
  }

  lemma {:induction false} TotalAppend(a: seq<Factor>, b: seq<Factor>)
    ensures Total(a + b) == Total(a) + Total(b)
    decreases |b|
  {
    if b != [] {
      var b' := b[..|b| - 1];
      assert (a + b)[..|a + b| - 1] == a + b';
      TotalAppend(a, b');
    } else {
      assert a + b == a;
    }
  }

  /** Without repetitions, the sequence sum is the sum of the set of its elements. */
  lemma {:induction false} TotalOfDistinct(fs: seq<Factor>)
    requires Distinct(fs)
    ensures Total(fs) == SumOf(set f | f in fs)
    decreases |fs|
  {
    if fs != [] {
      var init, last := fs[..|fs| - 1], fs[|fs| - 1];
      assert Distinct(init);
      TotalOfDistinct(init);
      var all := set f | f in fs;
      assert last in all;
      SumOfRemove(all, last);
      assert all - {last} == set f | f in init by {
        forall f | f in all - {last} ensures f in init {
          var i :| 0 <= i < |fs| && fs[i] == f;
          assert i < |fs| - 1;
          assert init[i] == f;
        }
      }
    }
  }

  // ---------------------------------------------------------------------
  // The scorer
  //
  // `Partition.Score` is one Go function with three loops; each loop is a
  // method here so that each is proved on its own.

  /** Counts the positive shared-port entries of member g (entanglement.go:91-96). */
  method CountRow(part: Partition, g: string) returns (count: nat)
    requires g in part
    ensures count == |SharedRow(part, g, part[g].sharedPortCount.Keys)|
  {
    var spc := part[g].sharedPortCount;
    count := 0;
    ghost var counted: set<(string, string)> := {};
    var ks := spc.Keys;
    while ks != {}
      invariant ks <= spc.Keys
      invariant counted == SharedRow(part, g, spc.Keys - ks) && count == |counted|
      decreases ks
    {
      var k :| k in ks;
      if spc[k] > 0 {
        assert (g, k) !in counted;
        count := count + 1;
        counted := counted + {(g, k)};
      }
      ks := ks - {k};
    }
    assert spc.Keys - ks == spc.Keys;
  }

  /** Counts the positive shared-port entries of all members (entanglement.go:90-97). */
  method CountShared(part: Partition) returns (count: nat)
    ensures count == |SharedEntries(part, part.Keys)|
  {
    count := 0;
    var gs := part.Keys;
    while gs != {}
      invariant gs <= part.Keys
      invariant count == |SharedEntries(part, part.Keys - gs)|
      decreases gs
    {
      var g :| g in gs;
      var n := CountRow(part, g);
      var before := SharedEntries(part, part.Keys - gs);
      var row := SharedRow(part, g, part[g].sharedPortCount.Keys);
      assert SharedEntries(part, part.Keys - (gs - {g})) == before + row;
      assert before !! row;
      count := count + n;
      gs := gs - {g};
    }
    assert part.Keys - gs == part.Keys;
  }

  /** Appends the reference factors of member g (entanglement.go:111-121). */
  method AppendRow(part: Partition, g: string, factors: seq<Factor>) returns (factors': seq<Factor>)
    requires g in part
    requires Distinct(factors)
    requires forall f :: f in factors ==> !(f.reason.Referencing? && f.reason.group == g)
    ensures Distinct(factors')
    ensures (set f | f in factors') == (set f | f in factors) + RowFactors(part, g, part.Keys)
  {
    var group := part[g];
    factors' := factors;
    var os := part.Keys;
    while os != {}
      invariant os <= part.Keys
      invariant Distinct(factors')
      invariant (set f | f in factors') == (set f | f in factors) + RowFactors(part, g, part.Keys - os)
      decreases os
    {
      var o :| o in os;
      var other := part[o];
      if Count(group.referenceCount, other.name) > 0 && other.portCount > 0 {
        var f := Factor(other.portCount * Count(group.referenceCount, other.name),
                        Referencing(g, Count(group.referenceCount, other.name), o, other.portCount));
        assert f == ReferenceFactor(part, g, o);
        assert f !in (set f | f in factors) + RowFactors(part, g, part.Keys - os);
        factors' := factors' + [f];
      }
      os := os - {o};
    }
    assert part.Keys - os == part.Keys;
  }

  /** Collects one factor per qualifying ordered pair of members (entanglement.go:110-122). */
  method CollectReferences(part: Partition) returns (factors: seq<Factor>)
    ensures Distinct(factors)
    ensures (set f | f in factors) == ReferenceFactors(part, part.Keys)
  {
    factors := [];
    var gs := part.Keys;
    while gs != {}
      invariant gs <= part.Keys
      invariant Distinct(factors)
      invariant (set f | f in factors) == ReferenceFactors(part, part.Keys - gs)
      decreases gs
    {
      var g :| g in gs;
      factors := AppendRow(part, g, factors);
      assert ReferenceFactors(part, part.Keys - (gs - {g}))
        == ReferenceFactors(part, part.Keys - gs) + RowFactors(part, g, part.Keys);
      gs := gs - {g};
    }
    assert part.Keys - gs == part.Keys;
  }

  /** Sums the factor values (entanglement.go:124-127). */
  method SumValues(factors: seq<Factor>) returns (value: nat)
    ensures value == Total(factors)
  {
    value := 0;
    var i := 0;
    while i < |factors|
      invariant 0 <= i <= |factors|
      invariant value == Total(factors[..i])
    {
      assert factors[..i + 1][..i] == factors[..i];
      value := value + factors[i].value;
      i := i + 1;
    }
    assert factors[..|factors|] == factors;
  }

  /** The factors of a partition's score, whatever order they are emitted in. */
  ghost function ScoreFactors(part: Partition): multiset<Factor> {
    multiset(SharedHead(part)) + multiset(ReferenceFactors(part, part.Keys))
  }

  /** A sequence without repetitions holds each of its elements once. */
  lemma {:induction false} DistinctMultiset(fs: seq<Factor>)
    requires Distinct(fs)
    ensures multiset(fs) == multiset(set f | f in fs)
  {
    if fs != [] {
      var init, last := fs[..|fs| - 1], fs[|fs| - 1];
      assert fs == init + [last];
      assert Distinct(init) by {
        forall i, j | 0 <= i < j < |init| ensures init[i] != init[j] {
          assert init[i] == fs[i] && init[j] == fs[j];
        }
      }
      DistinctMultiset(init);
      var before := set f | f in init;
      assert last !in before by {
        forall i | 0 <= i < |init| ensures init[i] != last {
          assert init[i] == fs[i];
        }
      }
      ElementsOfAppend(init, last);
      assert multiset(before + {last}) == multiset(before) + multiset{last};
    }
  }

  /** The elements of `s + [x]` are those of `s` and `x`. */
  lemma ElementsOfAppend(s: seq<Factor>, x: Factor)
    ensures (set f | f in s + [x]) == (set f | f in s) + {x}
  {
  }

  /** `Partition.Score` (entanglement.go:89-129). */
  method ScoreOf(part: Partition) returns (s: Score)
    ensures s.value == Total(s.factors)
    ensures s.value == ScoreValue(part)
    ensures multiset(s.factors) == ScoreFactors(part)
    ensures |SharedHead(part)| <= |s.factors| && s.factors[..|SharedHead(part)|] == SharedHead(part)
    ensures Distinct(s.factors[|SharedHead(part)|..])
    ensures (set f | f in s.factors[|SharedHead(part)|..]) == ReferenceFactors(part, part.Keys)
  {
    var count := CountShared(part);
    count := count / 2;
    var head: seq<Factor> := [];
    if count > 0 {
      head := [Factor(count, SharedPorts(count))];
    }
    assert head == SharedHead(part);
    var rest := CollectReferences(part);
    var factors := head + rest;
    assert factors[..|head|] == head && factors[|head|..] == rest;
    var value := SumValues(factors);
    TotalAppend(head, rest);
    TotalOfDistinct(rest);
    DistinctMultiset(rest);
    assert multiset(factors) == multiset(head) + multiset(rest);
    s := Score(value, factors);
  }

  // ---------------------------------------------------------------------
  // Halving counts pairs

  /** Every positive shared-port entry of a member points at a different member. */
  ghost predicate SharingWithin(part: Partition) {
    forall g, k :: g in part && k in part[g].sharedPortCount && part[g].sharedPortCount[k] > 0 ==>
      k in part && k != g
  }

  /** The unordered pairs {g, k} behind a set of ordered entries. */
  ghost function UnorderedPairs(entries: set<(string, string)>): set<set<string>> {
    set e | e in entries :: {e.0, e.1}
  }

  /** A symmetric, irreflexive set of ordered pairs has twice as many elements as it has unordered pairs. */
  lemma {:induction false} HalfOfSymmetric(entries: set<(string, string)>)
    requires forall e :: e in entries ==> e.0 != e.1 && (e.1, e.0) in entries
    ensures |entries| == 2 * |UnorderedPairs(entries)|
    decreases |entries|
  {
    if entries != {} {
      var e :| e in entries;
      var a, b := e.0, e.1;
      var rest := entries - {(a, b), (b, a)};
      assert (b, a) in entries && a != b;
      assert |rest| == |entries| - 2;
      assert UnorderedPairs(rest) == UnorderedPairs(entries) - {{a, b}} by {
        forall p | p in UnorderedPairs(entries) - {{a, b}} ensures p in UnorderedPairs(rest) {
          var e' :| e' in entries && p == {e'.0, e'.1};
          assert {b, a} == {a, b};
          assert e' != (a, b) && e' != (b, a);
        }
        forall p | p in UnorderedPairs(rest) ensures p in UnorderedPairs(entries) - {{a, b}} {
          var e' :| e' in rest && p == {e'.0, e'.1};
          assert e'.0 !in {a, b} || e'.1 !in {a, b};
        }
      }
      assert {a, b} in UnorderedPairs(entries);
      HalfOfSymmetric(rest);
    }
  }

  /**
   * When the members' shared-port counts are symmetric and point only at
   * other members, the halved count is the number of unordered pairs of
   * members that share ports: one pair counts once, not twice.
   */
  lemma PairCountCountsPairs(part: Partition)
    requires SymmetricSharing(part) && SharingWithin(part)
    ensures PairCount(part) == |UnorderedPairs(SharedEntries(part, part.Keys))|
  {
    var entries := SharedEntries(part, part.Keys);
    forall e | e in entries ensures e.0 != e.1 && (e.1, e.0) in entries {
      var g, k := e.0, e.1;
      assert k in part && Count(part[k].sharedPortCount, g) == Count(part[g].sharedPortCount, k);
    }
    HalfOfSymmetric(entries);
  }
}
