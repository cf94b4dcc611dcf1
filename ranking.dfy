/**
 * The log record of a partition's score (pkg/core/entanglement.go:131-162):
 * the member names in ascending byte order, and the reasons of the three
 * highest-valued factors. Go sorts both slices in place; the sorts are an
 * in-place insertion sort over an `array`, specified only by what Go's
 * `sort.Strings` and (unstable) `sort.Slice` promise: ordered and a
 * permutation of the input.
 */
module Ranking {
  import opened Model
  import opened Scoring

  // ---------------------------------------------------------------------
  // Orders

  /** `s` sorts no later than `t`: Go's string comparison, character by character. */
  predicate LexLe(s: string, t: string)
    decreases |s|
  {
    |s| == 0 || (|t| > 0 && (s[0] < t[0] || (s[0] == t[0] && LexLe(s[1..], t[1..]))))
  }

  /** The comparison `sort.Slice` is given: higher values first. */
  predicate AtLeast(x: Factor, y: Factor) {
    x.value >= y.value
  }

  /** Every pair of elements appears in the order `le` allows. */
  ghost predicate SortedBy<T>(s: seq<T>, le: (T, T) -> bool) {
    forall i, j :: 0 <= i < j < |s| ==> le(s[i], s[j])
  }

  ghost predicate TotalPreorder<T(!new)>(le: (T, T) -> bool) {
    (forall x, y :: le(x, y) || le(y, x)) &&
    (forall x, y, z :: le(x, y) && le(y, z) ==> le(x, z))
  }

  lemma {:induction false} LexLeTotalAt(s: string, t: string)
    ensures LexLe(s, t) || LexLe(t, s)
    decreases |s|
  {
    if |s| > 0 && |t| > 0 && s[0] == t[0] {
      LexLeTotalAt(s[1..], t[1..]);
    }
  }

  lemma {:induction false} LexLeTransitiveAt(s: string, t: string, u: string)
    requires LexLe(s, t) && LexLe(t, u)
    ensures LexLe(s, u)
    decreases |s|
  {
    if |s| > 0 && s[0] == t[0] && t[0] == u[0] {
      LexLeTransitiveAt(s[1..], t[1..], u[1..]);
    }
  }

  lemma {:induction false} LexLeAntisymmetricAt(s: string, t: string)
    requires LexLe(s, t) && LexLe(t, s)
    ensures s == t
    decreases |s|
  {
    if |s| > 0 {
      LexLeAntisymmetricAt(s[1..], t[1..]);
      assert s == [s[0]] + s[1..] && t == [t[0]] + t[1..];
    }
  }

  /** Go's string order is a total order. */
  lemma LexLeIsTotalPreorder()
    ensures TotalPreorder(LexLe)
  {
    forall s, t ensures LexLe(s, t) || LexLe(t, s) {
      LexLeTotalAt(s, t);
    }
    forall s, t, u | LexLe(s, t) && LexLe(t, u) ensures LexLe(s, u) {
      LexLeTransitiveAt(s, t, u);
    }
  }

  lemma AtLeastIsTotalPreorder()
    ensures TotalPreorder(AtLeast)
  {
  }

  // ---------------------------------------------------------------------
  // Sorting in place

  /** Sorts `a` in place into the order `le` (the `sort.Strings` and `sort.Slice` calls). */
  method SortBy<T(!new)>(a: array<T>, le: (T, T) -> bool)
    requires TotalPreorder(le)
    modifies a
    ensures SortedBy(a[..], le)
    ensures multiset(a[..]) == multiset(old(a[..]))
  {
    var i := 0;
    while i < a.Length
      invariant 0 <= i <= a.Length
      invariant SortedBy(a[..i], le)
      invariant multiset(a[..]) == multiset(old(a[..]))
    {
      InsertLast(a, i, le);
      i := i + 1;
    }
    assert a[..a.Length] == a[..];
  }

  /** Moves `a[i]` down into the sorted prefix `a[..i]`. */
  method InsertLast<T(!new)>(a: array<T>, i: nat, le: (T, T) -> bool)
    requires TotalPreorder(le)
    requires i < a.Length && SortedBy(a[..i], le)
    modifies a
    ensures SortedBy(a[..i + 1], le)
    ensures multiset(a[..]) == multiset(old(a[..]))
  {
    var j := i;
    while j > 0 && !le(a[j - 1], a[j])
      invariant 0 <= j <= i
      invariant forall k, l :: 0 <= k < l <= i && k != j && l != j ==> le(a[k], a[l])
      invariant forall l :: j < l <= i ==> le(a[j], a[l])
      invariant multiset(a[..]) == multiset(old(a[..]))
      decreases j
    {
      a[j - 1], a[j] := a[j], a[j - 1];
      j := j - 1;
    }
  }

  /** Two sequences sorted by Go's string order with the same elements start alike. */
  lemma SortedHeadsAgree(a: seq<string>, b: seq<string>)
    requires SortedBy(a, LexLe) && SortedBy(b, LexLe)
    requires multiset(a) == multiset(b) && |a| > 0 && |b| > 0
    ensures a[0] == b[0]
  {
    assert a[0] in multiset(b);
    var k :| 0 <= k < |b| && b[k] == a[0];
    assert b[0] in multiset(a);
    var m :| 0 <= m < |a| && a[m] == b[0];
    if m != 0 && k != 0 {
      assert LexLe(a[0], a[m]) && LexLe(b[0], b[k]);
      LexLeAntisymmetricAt(a[0], b[0]);
    }
  }

  /** Two sequences sorted by Go's string order with the same elements are equal. */
  lemma {:induction false} SortedUnique(a: seq<string>, b: seq<string>)
    requires SortedBy(a, LexLe) && SortedBy(b, LexLe)
    requires multiset(a) == multiset(b)
    ensures a == b
    decreases |a|
  {
    assert |a| == |multiset(a)| == |multiset(b)| == |b|;
    if |a| > 0 {
      SortedHeadsAgree(a, b);
      var ta, tb := a[1..], b[1..];
      TailMultiset(a);
      TailMultiset(b);
      SortedTail(a, LexLe);
      SortedTail(b, LexLe);
      SortedUnique(ta, tb);
      assert a == [a[0]] + ta && b == [b[0]] + tb;
    }
  }

  lemma SortedTail<T(!new)>(s: seq<T>, le: (T, T) -> bool)
    requires SortedBy(s, le) && |s| > 0
    ensures SortedBy(s[1..], le)
  {
    forall i, j | 0 <= i < j < |s| - 1 ensures le(s[1..][i], s[1..][j]) {
      assert s[1..][i] == s[i + 1] && s[1..][j] == s[j + 1];
    }
  }

  lemma TailMultiset<T>(s: seq<T>)
    requires |s| > 0
    ensures multiset(s[1..]) == multiset(s) - multiset{s[0]}
  {
    assert s == [s[0]] + s[1..];
  }

  // ---------------------------------------------------------------------
  // The log record

  /** The arguments of the log line of entanglement.go:153-161; the wording is left out. */
  datatype LogRecord = LogRecord(
    projectID: string,
    size: nat,
    names: seq<string>,
    value: nat,
    reasons: seq<Reason>)

  /** The partition's names, in map iteration order (entanglement.go:133-136). */
  method CollectNames(part: Partition) returns (names: seq<string>)
    ensures multiset(names) == multiset(part.Keys)
  {
    names := [];
    var ks := part.Keys;
    while ks != {}
      invariant ks <= part.Keys
      invariant multiset(names) == multiset(part.Keys - ks)
      decreases ks
    {
      var k :| k in ks;
      assert part.Keys - (ks - {k}) == (part.Keys - ks) + {k};
      assert k !in part.Keys - ks;
      names := names + [k];
      ks := ks - {k};
    }
    assert part.Keys - ks == part.Keys;
  }

  /** The reasons of the first three factors, or of all when there are fewer (entanglement.go:144-151). */
  method TopReasons(ranked: seq<Factor>) returns (reasons: seq<Reason>)
    ensures |reasons| == if |ranked| < 3 then |ranked| else 3
    ensures forall i :: 0 <= i < |reasons| ==> reasons[i] == ranked[i].reason
  {
    reasons := [];
    var n := 0;
    while n < |ranked|
      invariant 0 <= n <= |ranked| && n < 3
      invariant |reasons| == n
      invariant forall k :: 0 <= k < n ==> reasons[k] == ranked[k].reason
    {
      reasons := reasons + [ranked[n].reason];
      n := n + 1;
      if |reasons| == 3 {
        break;
      }
    }
  }

  /**
   * `Partition.LogScore` (entanglement.go:132-162). `ranked` is the factor
   * slice after Go's in-place sort, which the caller sees.
   */
  method LogScore(part: Partition, score: Score, projectID: string) returns (rec: LogRecord, ranked: seq<Factor>)
    ensures rec.projectID == projectID && rec.size == |part| && rec.value == score.value
    ensures SortedBy(rec.names, LexLe) && multiset(rec.names) == multiset(part.Keys)
    ensures SortedBy(ranked, AtLeast) && multiset(ranked) == multiset(score.factors)
    ensures |rec.reasons| == if |ranked| < 3 then |ranked| else 3
    ensures forall i :: 0 <= i < |rec.reasons| ==> rec.reasons[i] == ranked[i].reason
  {
    var collected := CollectNames(part);
    var names := new string[|collected|](k requires 0 <= k < |collected| => collected[k]);
    assert names[..] == collected;
    LexLeIsTotalPreorder();
    SortBy(names, LexLe);

    // rank the factors (entanglement.go:139-141)
    var factors := new Factor[|score.factors|](k requires 0 <= k < |score.factors| => score.factors[k]);
    assert factors[..] == score.factors;
    AtLeastIsTotalPreorder();
    SortBy(factors, AtLeast);
    ranked := factors[..];

    var reasons := TopReasons(ranked);
    rec := LogRecord(projectID, |part|, names[..], score.value, reasons);
  }

  /** The names in the log line depend only on the partition, not on map iteration order. */
  lemma NamesAreDetermined(part: Partition, a: seq<string>, b: seq<string>)
    requires SortedBy(a, LexLe) && multiset(a) == multiset(part.Keys)
    requires SortedBy(b, LexLe) && multiset(b) == multiset(part.Keys)
    ensures a == b
  {
    SortedUnique(a, b);
  }
}
