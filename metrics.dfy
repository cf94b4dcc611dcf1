/**
 * One round of metric collection (main.go:102-136): collect the data,
 * partition each project's groups, score the partitions, and set the two
 * gauges of the project to the highest and the summed score. A partition
 * whose score exceeds the log limit is logged.
 */
module Metrics {
  import opened Wrappers
  import opened Model
  import opened Partitioning
  import opened Scoring
  import opened Ranking
  import opened Collect

  // ---------------------------------------------------------------------
  // Aggregates over the partitions' scores

  /** `values` are the scores of `parts`, in order. */
  ghost predicate ScoresOf(values: seq<nat>, parts: seq<Partition>) {
    |values| == |parts| && forall k :: 0 <= k < |parts| ==> values[k] == ScoreValue(parts[k])
  }

  /** The sum of the scores (main.go:122). */
  function Sum(values: seq<nat>): nat {
    if values == [] then 0 else Sum(values[..|values| - 1]) + values[|values| - 1]
  }

  /** The highest score, zero when there are none (main.go:123-125). */
  function Max(values: seq<nat>): nat {
    if values == [] then 0
    else
      var m := Max(values[..|values| - 1]);
      var last := values[|values| - 1];
      if m < last then last else m
  }

  /** The highest score bounds every score and is one of them; zero when there are none. */
  lemma {:induction false} MaxIsMaximum(values: seq<nat>)
    ensures forall i :: 0 <= i < |values| ==> values[i] <= Max(values)
    ensures values == [] ==> Max(values) == 0
    ensures values != [] ==> exists i :: 0 <= i < |values| && values[i] == Max(values)
  {
    if values != [] {
      var init := values[..|values| - 1];
      MaxIsMaximum(init);
      assert forall i :: 0 <= i < |init| ==> init[i] == values[i];
      if init != [] && Max(init) >= values[|values| - 1] {
        var i :| 0 <= i < |init| && init[i] == Max(init);
        assert values[i] == Max(values);
      }
    }
  }

  /** The highest score is at most the sum of all scores. */
  lemma {:induction false} MaxAtMostSum(values: seq<nat>)
    ensures Max(values) <= Sum(values)
  {
    if values != [] {
      MaxAtMostSum(values[..|values| - 1]);
    }
  }

  /** The positions whose score is strictly above the limit, in order (main.go:127). */
  function Logged(values: seq<nat>, limit: nat): seq<nat> {
    if values == [] then []
    else
      var n := |values| - 1;
      Logged(values[..n], limit) + (if values[n] > limit then [n] else [])
  }

  /** Exactly the positions above the limit are logged, each once and in increasing order. */
  lemma {:induction false} LoggedPositions(values: seq<nat>, limit: nat)
    ensures forall k :: 0 <= k < |Logged(values, limit)| ==>
      Logged(values, limit)[k] < |values| && values[Logged(values, limit)[k]] > limit
    ensures forall i :: 0 <= i < |values| && values[i] > limit ==> i in Logged(values, limit)
    ensures forall k, l :: 0 <= k < l < |Logged(values, limit)| ==> Logged(values, limit)[k] < Logged(values, limit)[l]
  {
    if values != [] {
      var n := |values| - 1;
      LoggedPositions(values[..n], limit);
      assert forall i :: 0 <= i < n ==> values[..n][i] == values[i];
    }
  }

  /** `reasons` are those of the first three factors of `ranked`, or of all when there are fewer. */
  ghost predicate FirstReasons(reasons: seq<Reason>, ranked: seq<Factor>) {
    |reasons| == (if |ranked| < 3 then |ranked| else 3) &&
    forall i :: 0 <= i < |reasons| ==> reasons[i] == ranked[i].reason
  }

  /**
   * `reasons` are the first reasons of some ranking of the partition's score
   * factors by non-increasing value (ties in any order, as `sort.Slice` leaves them).
   */
  ghost predicate TopReasonsOf(reasons: seq<Reason>, part: Partition) {
    exists ranked :: SortedBy(ranked, AtLeast) && multiset(ranked) == ScoreFactors(part) &&
      FirstReasons(reasons, ranked)
  }

  /** `rec` is the log record of `part`, whose score is `value`, within project `projectID`. */
  ghost predicate LogOf(rec: LogRecord, part: Partition, value: nat, projectID: string) {
    rec.projectID == projectID && rec.size == |part| && rec.value == value &&
    SortedBy(rec.names, LexLe) && multiset(rec.names) == multiset(part.Keys) &&
    TopReasonsOf(rec.reasons, part)
  }

  /** `logs` are the records of the partitions at the logged positions, in order. */
  ghost predicate LogsOf(logs: seq<LogRecord>, parts: seq<Partition>, values: seq<nat>, limit: nat, projectID: string)
    requires |values| == |parts|
  {
    var at := Logged(values, limit);
    |logs| == |at| &&
    forall k :: 0 <= k < |logs| ==> at[k] < |parts| && LogOf(logs[k], parts[at[k]], values[at[k]], projectID)
  }

  // ---------------------------------------------------------------------
  // One project

  /** Scores one partition and logs it when the score exceeds the limit (main.go:121-129). */
  method ScoreOne(projectID: string, part: Partition, limit: nat) returns (value: nat, log: Option<LogRecord>)
    ensures value == ScoreValue(part)
    ensures log.Some? <==> value > limit
    ensures log.Some? ==> LogOf(log.value, part, value, projectID)
  {
    var score := ScoreOf(part);
    value := score.value;
    log := None;
    if score.value > limit {
      var rec, ranked := LogScore(part, score, projectID);
      assert FirstReasons(rec.reasons, ranked);
      log := Some(rec);
    }
  }

  /** One more score appends its position to the logged ones exactly when it is above the limit. */
  lemma LoggedStep(values: seq<nat>, i: nat, limit: nat)
    requires |values| == i + 1
    ensures Logged(values, limit) == Logged(values[..i], limit) + (if values[i] > limit then [i] else [])
  {
  }

  /** One more partition: the records extend by its record when it is logged. */
  lemma LogsStep(parts: seq<Partition>, values: seq<nat>, i: nat, limit: nat, projectID: string,
                 logs: seq<LogRecord>, log: Option<LogRecord>)
    requires i < |parts| && |values| == i + 1
    requires LogsOf(logs, parts[..i], values[..i], limit, projectID)
    requires log.Some? <==> values[i] > limit
    requires log.Some? ==> LogOf(log.value, parts[i], values[i], projectID)
    ensures LogsOf(if log.Some? then logs + [log.value] else logs, parts[..i + 1], values, limit, projectID)
  {
    var before := Logged(values[..i], limit);
    LoggedPositions(values[..i], limit);
    LoggedStep(values, i, limit);
    var at := Logged(values, limit);
    var after := if log.Some? then logs + [log.value] else logs;
    assert |after| == |at|;
    forall k | 0 <= k < |after|
      ensures at[k] < |parts[..i + 1]| && LogOf(after[k], parts[..i + 1][at[k]], values[at[k]], projectID)
    {
      if k < |logs| {
        assert at[k] == before[k] && after[k] == logs[k];
        assert parts[..i + 1][before[k]] == parts[..i][before[k]];
        assert values[before[k]] == values[..i][before[k]];
      } else {
        assert at[k] == i && after[k] == log.value;
      }
    }
  }

  /** One more score adds to the sum and may raise the maximum. */
  lemma AggregateStep(values: seq<nat>, value: nat)
    ensures Sum(values + [value]) == Sum(values) + value
    ensures Max(values + [value]) == if Max(values) < value then value else Max(values)
  {
    assert (values + [value])[..|values|] == values;
  }

  lemma ScoresStep(parts: seq<Partition>, values: seq<nat>, i: nat, value: nat)
    requires i < |parts| && ScoresOf(values, parts[..i]) && value == ScoreValue(parts[i])
    ensures ScoresOf(values + [value], parts[..i + 1])
  {
    assert parts[..i + 1][..i] == parts[..i];
  }

  /** The inner loop of main.go:120-130 over one project's partitions. */
  method ScorePartitions(projectID: string, parts: seq<Partition>, limit: nat)
    returns (maxScore: nat, totalScore: nat, logs: seq<LogRecord>, values: seq<nat>)
    ensures ScoresOf(values, parts)
    ensures maxScore == Max(values) && totalScore == Sum(values)
    ensures LogsOf(logs, parts, values, limit, projectID)
  {
    maxScore, totalScore, logs, values := 0, 0, [], [];
    var i := 0;
    while i < |parts|
      invariant 0 <= i <= |parts|
      invariant ScoresOf(values, parts[..i])
      invariant maxScore == Max(values) && totalScore == Sum(values)
      invariant LogsOf(logs, parts[..i], values, limit, projectID)
    {
      var value, log := ScoreOne(projectID, parts[i], limit);
      var values' := values + [value];
      assert values'[..i] == values;
      LogsStep(parts, values', i, limit, projectID, logs, log);
      ScoresStep(parts, values, i, value);
      AggregateStep(values, value);
      totalScore := totalScore + value;
      if maxScore < value {
        maxScore := value;
      }
      if log.Some? {
        logs := logs + [log.value];
      }
      values := values';
      i := i + 1;
    }
    assert parts[..i] == parts;
  }

  // ---------------------------------------------------------------------
  // One round

  /** The values of the two gauges of one project. */
  datatype Gauges = Gauges(maxEntanglement: nat, totalEntanglement: nat)

  /** What one round produces: gauge values by project ID and the log records. */
  datatype Round = Round(gauges: map<string, Gauges>, logs: seq<LogRecord>)

  /**
   * The gauge values of a project are the highest and the summed score of a
   * partitioning of its groups along `dir`, and `logs` are the records of
   * exactly the partitions whose score is above the limit, in partition
   * order. Along both directions no relation crosses two partitions.
   */
  ghost predicate Measured(groups: Groups, dir: Direction, parts: seq<Partition>, gauge: Gauges,
                           logs: seq<LogRecord>, limit: nat, projectID: string) {
    IsPartitioning(groups, dir, parts) &&
    (dir == EitherWay ==> Separated(groups, parts)) &&
    var values := ScoresIn(parts);
    gauge == Gauges(Max(values), Sum(values)) && LogsOf(logs, parts, values, limit, projectID)
  }

  /** The scores of `parts`, in order. */
  ghost function ScoresIn(parts: seq<Partition>): (values: seq<nat>)
    ensures ScoresOf(values, parts)
  {
    seq(|parts|, k requires 0 <= k < |parts| => ScoreValue(parts[k]))
  }

  /** Every logged record names the project and has a score above the limit. */
  lemma LogsAboveLimit(logs: seq<LogRecord>, parts: seq<Partition>, values: seq<nat>, limit: nat, projectID: string)
    requires |values| == |parts| && LogsOf(logs, parts, values, limit, projectID)
    ensures forall rec :: rec in logs ==> rec.projectID == projectID && rec.value > limit
  {
    var at := Logged(values, limit);
    LoggedPositions(values, limit);
    forall rec | rec in logs ensures rec.projectID == projectID && rec.value > limit {
      var k :| 0 <= k < |logs| && logs[k] == rec;
      assert LogOf(logs[k], parts[at[k]], values[at[k]], projectID);
    }
  }

  /** The program's partitioner for `Outgoing`, the corrected one for `EitherWay`. */
  method PartitionAlong(project: Project, dir: Direction) returns (parts: seq<Partition>)
    requires WellKeyed(project.groups)
    ensures IsPartitioning(project.groups, dir, parts)
    ensures dir == EitherWay ==> Separated(project.groups, parts)
  {
    if dir == Outgoing {
      parts := PartitionSecurityGroups(project);
    } else {
      parts := PartitionConnected(project);
    }
  }

  /** One iteration of the loop of main.go:114-135. */
  method ProjectRound(projectID: string, project: Project, limit: nat, dir: Direction)
    returns (gauge: Gauges, logs: seq<LogRecord>, parts: seq<Partition>)
    requires WellKeyed(project.groups)
    ensures Measured(project.groups, dir, parts, gauge, logs, limit, projectID)
    ensures forall rec :: rec in logs ==> rec.projectID == projectID && rec.value > limit
  {
    parts := PartitionAlong(project, dir);
    var maxScore, totalScore, more, values := ScorePartitions(projectID, parts, limit);
    LogsAboveLimit(more, parts, values, limit, projectID);
    gauge := Gauges(maxScore, totalScore);
    logs := more;
    assert values == ScoresIn(parts);
  }

  /** The records of project `p`, in order. */
  function RecordsOf(logs: seq<LogRecord>, p: string): seq<LogRecord> {
    if logs == [] then []
    else RecordsOf(logs[..|logs| - 1], p) + (if logs[|logs| - 1].projectID == p then [logs[|logs| - 1]] else [])
  }

  lemma {:induction false} RecordsOfAppend(a: seq<LogRecord>, b: seq<LogRecord>, p: string)
    ensures RecordsOf(a + b, p) == RecordsOf(a, p) + RecordsOf(b, p)
    decreases |b|
  {
    if b != [] {
      var init := b[..|b| - 1];
      assert (a + b)[..|a + b| - 1] == a + init;
      RecordsOfAppend(a, init, p);
    } else {
      assert a + b == a;
    }
  }

  /** Records all of project `p` are all its records. */
  lemma {:induction false} RecordsOfOwn(logs: seq<LogRecord>, p: string)
    requires forall rec :: rec in logs ==> rec.projectID == p
    ensures RecordsOf(logs, p) == logs
  {
    if logs != [] {
      var n := |logs| - 1;
      var init := logs[..n];
      forall rec | rec in init ensures rec.projectID == p {
        var i :| 0 <= i < n && init[i] == rec;
        assert logs[i] == rec;
      }
      RecordsOfOwn(init, p);
      assert logs[n].projectID == p;
      assert init + [logs[n]] == logs;
    }
  }

  /** Records none of project `p` hold none of its records. */
  lemma {:induction false} RecordsOfOthers(logs: seq<LogRecord>, p: string)
    requires forall rec :: rec in logs ==> rec.projectID != p
    ensures RecordsOf(logs, p) == []
  {
    if logs != [] {
      var init := logs[..|logs| - 1];
      assert forall rec :: rec in init ==> rec in logs;
      RecordsOfOthers(init, p);
    }
  }

  /** Every project with gauges is measured on its recorded partitions, with its recorded records. */
  ghost predicate AllMeasured(projects: Projects, dir: Direction, partitionsOf: map<string, seq<Partition>>,
                              gauges: map<string, Gauges>, logsOf: map<string, seq<LogRecord>>, limit: nat) {
    forall p {:trigger MeasuredAt(projects, dir, partitionsOf, gauges, logsOf, limit, p)} :: p in gauges ==>
      MeasuredAt(projects, dir, partitionsOf, gauges, logsOf, limit, p)
  }

  /** Project `p` is measured on its recorded partitions, gauges and records. */
  ghost predicate MeasuredAt(projects: Projects, dir: Direction, partitionsOf: map<string, seq<Partition>>,
                             gauges: map<string, Gauges>, logsOf: map<string, seq<LogRecord>>, limit: nat, p: string) {
    p in projects && p in partitionsOf && p in gauges && p in logsOf &&
    Measured(projects[p].groups, dir, partitionsOf[p], gauges[p], logsOf[p], limit, p)
  }

  /** Measuring one more project keeps the others measured. */
  lemma MeasuredStep(projects: Projects, dir: Direction, partitionsOf: map<string, seq<Partition>>,
                     gauges: map<string, Gauges>, logsOf: map<string, seq<LogRecord>>, limit: nat,
                     p: string, parts: seq<Partition>, gauge: Gauges, more: seq<LogRecord>)
    requires AllMeasured(projects, dir, partitionsOf, gauges, logsOf, limit)
    requires p in projects && Measured(projects[p].groups, dir, parts, gauge, more, limit, p)
    ensures AllMeasured(projects, dir, partitionsOf[p := parts], gauges[p := gauge], logsOf[p := more], limit)
  {
    var partitionsOf', gauges', logsOf' := partitionsOf[p := parts], gauges[p := gauge], logsOf[p := more];
    forall q | q in gauges'
      ensures MeasuredAt(projects, dir, partitionsOf', gauges', logsOf', limit, q)
    {
      if q != p {
        assert MeasuredAt(projects, dir, partitionsOf, gauges, logsOf, limit, q);
        assert partitionsOf'[q] == partitionsOf[q] && gauges'[q] == gauges[q] && logsOf'[q] == logsOf[q];
      }
    }
  }

  /** With each project's records picked out of the log, every project is measured on the log itself. */
  lemma MeasuredOnLog(projects: Projects, dir: Direction, partitionsOf: map<string, seq<Partition>>,
                      gauges: map<string, Gauges>, logsOf: map<string, seq<LogRecord>>, logs: seq<LogRecord>,
                      limit: nat)
    requires AllMeasured(projects, dir, partitionsOf, gauges, logsOf, limit) && Splits(logs, logsOf)
    ensures forall p :: p in gauges ==>
      p in projects && p in partitionsOf &&
      Measured(projects[p].groups, dir, partitionsOf[p], gauges[p], RecordsOf(logs, p), limit, p)
  {
    forall p | p in gauges
      ensures p in projects && p in partitionsOf &&
        Measured(projects[p].groups, dir, partitionsOf[p], gauges[p], RecordsOf(logs, p), limit, p)
    {
      assert MeasuredAt(projects, dir, partitionsOf, gauges, logsOf, limit, p);
      assert RecordsOf(logs, p) == logsOf[p];
    }
  }

  /** Each project's records, picked out of the log in order, are the ones recorded for it. */
  ghost predicate Splits(logs: seq<LogRecord>, logsOf: map<string, seq<LogRecord>>) {
    forall q :: q in logsOf ==> RecordsOf(logs, q) == logsOf[q]
  }

  /** Appending the records of a new project keeps every project's records apart. */
  lemma SplitsStep(logs: seq<LogRecord>, logsOf: map<string, seq<LogRecord>>, p: string, more: seq<LogRecord>)
    requires Splits(logs, logsOf)
    requires forall rec :: rec in logs ==> rec.projectID != p
    requires forall rec :: rec in more ==> rec.projectID == p
    ensures Splits(logs + more, logsOf[p := more])
  {
    forall q | q in logsOf[p := more] ensures RecordsOf(logs + more, q) == logsOf[p := more][q] {
      RecordsOfAppend(logs, more, q);
      if q == p {
        RecordsOfOthers(logs, p);
        RecordsOfOwn(more, p);
      } else {
        RecordsOfOthers(more, q);
      }
    }
  }

  /**
   * `collectMetrics` (main.go:102-136), from the three scans on. A collector
   * error is fatal in the source; here it is the failure result. `Outgoing`
   * gives the program's partitions, `EitherWay` the corrected ones.
   */
  method CollectMetrics(groups: Scan<GroupRow>, shared: Scan<SharedPortRow>, refs: Scan<ReferenceRow>, limit: nat,
                        dir: Direction)
    returns (r: Result<Round, DbError>, ghost partitionsOf: map<string, seq<Partition>>)
    ensures r.Failure? <==> groups.failure.Some? || shared.failure.Some? || refs.failure.Some?
    ensures r.Success? ==>
      var ps := Collection(groups.rows, shared.rows, refs.rows);
      r.value.gauges.Keys == ps.Keys &&
      (forall p :: p in ps ==>
        p in partitionsOf && Measured(ps[p].groups, dir, partitionsOf[p], r.value.gauges[p], RecordsOf(r.value.logs, p), limit, p)) &&
      (forall rec :: rec in r.value.logs ==> rec.projectID in ps && rec.value > limit)
  {
    partitionsOf := map[];
    var c := CollectData(groups, shared, refs);
    if c.err.Some? {
      return Failure(c.err.value), partitionsOf;
    }
    var projects := c.projects.value;
    var gauges: map<string, Gauges> := map[];
    var logs: seq<LogRecord> := [];
    ghost var logsOf: map<string, seq<LogRecord>> := map[];
    var ks := projects.Keys;
    while ks != {}
      invariant ks <= projects.Keys
      invariant gauges.Keys == projects.Keys - ks
      invariant AllMeasured(projects, dir, partitionsOf, gauges, logsOf, limit)
      invariant Splits(logs, logsOf)
      invariant forall rec :: rec in logs ==> rec.projectID in gauges && rec.value > limit
      decreases ks
    {
      var p :| p in ks;
      var gauge, more, parts := ProjectRound(p, projects[p], limit, dir);
      MeasuredStep(projects, dir, partitionsOf, gauges, logsOf, limit, p, parts, gauge, more);
      SplitsStep(logs, logsOf, p, more);
      gauges := gauges[p := gauge];
      partitionsOf := partitionsOf[p := parts];
      logs := logs + more;
      logsOf := logsOf[p := more];
      ks := ks - {p};
    }
    assert projects == Collection(groups.rows, shared.rows, refs.rows);
    MeasuredOnLog(projects, dir, partitionsOf, gauges, logsOf, logs, limit);
    r := Success(Round(gauges, logs));
  }
}
