# secgroup-entanglement-exporter, modelled in Dafny

The exporter reads the Neutron database of an OpenStack region and measures how
entangled each project's security groups are. Two groups are related when ports
are bound to both of them, or when a rule of one references the other as its
remote group. Each round of collection does four things:

- It reads the groups, the shared-port counts and the rule references of all
  projects.
- It splits each project's groups into partitions by a flood fill.
- It scores every partition: half the number of positive shared-port entries,
  plus, for every group g with rules referencing a member o that has ports,
  the product of o's port count and g's rule count.
- It publishes the highest and the summed score of each project as two
  gauges, and logs every partition whose score exceeds a configured limit.
  The log line carries the partition's sorted names and its three biggest
  factors.

The configuration comes from environment variables. The Neutron release
selects the name of the project ID column.

The model has one Dafny module per part of the program:

- `Wrappers` and `Model` (model.dfy): Option and Result, and the projects,
  groups and partitions.
- `Partitioning` (partition.dfy): the flood fill, as an outer loop over
  worklist closures. It is parameterised by the direction of the edges it
  follows.
- `Scoring` (score.dfy): the score, computed by loops and specified by a
  ghost function `ScoreValue` that does not depend on map iteration order.
- `Ranking` (ranking.dfy): the log record, with an in-place insertion sort
  over an `array`.
- `Collect` (collect.dfy): the three passes of the data collector, as folds
  of the row callbacks, and the invariants they keep.
- `Metrics` (metrics.dfy): one round of `collectMetrics`.
- `Sharing` (sharing.dfy): why a consistent project's shared ports stay inside a partition, so the halved count counts pairs.
- `Config` (config.dfy): reading the configuration, and the
  `project_id` rewriting.
- `Findings` (findings.dfy): a two-group example on which the flood fill as
  written loses a reference.

Go's map iteration order is arbitrary choice (`:|`) here. Every property holds
for every seed and every visiting order. Go's `*SecurityGroup` pointers become
map entries that are reassigned. The database, the environment and the log are
parameters or results.

## Model

| member | source | states |
|---|---|---|
| Partitioning.AddConnected | pkg/core/entanglement.go:56-69 | the new partition holds the seed, is a submap of the project's groups disjoint from the groups already partitioned, marks exactly its own members in addition, is reached from the seed along followed edges, and every followed edge out of it ends in a marked group |
| Partitioning.RefersTo | pkg/core/entanglement.go:63 | a followed reference is a key of one of the group's two maps and, between groups of the project, a relation |
| Partitioning.VisitNeighbours | pkg/core/entanglement.go:62-68 | after visiting one group, every group it has an edge to is marked; the partition stays a reachable submap disjoint from earlier partitions |
| Partitioning.ChainExtend | pkg/core/entanglement.go:63-65 | adding a group along an edge from a member keeps every member reachable from the seed |
| Partitioning.InFirstAppend | pkg/core/entanglement.go:79-80 | appending a partition adds exactly its keys to the set of partitioned groups |
| Partitioning.AppendTracks | pkg/core/entanglement.go:60 | the `partitioned` set equals the union of the returned partitions' keys |
| Partitioning.AppendDisjoint | pkg/core/entanglement.go:64 | a partition built from unpartitioned groups keeps the partitions pairwise disjoint |
| Partitioning.AppendClosed | pkg/core/entanglement.go:62-67 | every followed edge from partition k ends in partition k or an earlier one |
| Partitioning.AppendReached | pkg/core/entanglement.go:72-80 | every partition is non-empty, a submap of the groups and reachable from its seed |
| Partitioning.PartitionGroups | pkg/core/entanglement.go:50-86 | the result is a partitioning: non-empty, pairwise disjoint, covering all groups, closed under followed edges, each partition reached from one seed; the loop ends when no group is left |
| Partitioning.PartitionSecurityGroups | pkg/core/entanglement.go:50-86 | the program's partitioner (outgoing edges only) returns such a partitioning of the project's groups, for every seed and visiting order |
| Partitioning.NoEdgeAcross | pkg/core/entanglement.go:30-32 | under the corrected fill no relation in either direction joins two different partitions |
| Partitioning.EitherWaySeparates | pkg/core/entanglement.go:30-32 | a partitioning closed under edges in both directions has no relation between distinct partitions |
| Partitioning.PartitionConnected | pkg/core/entanglement.go:30-32 | the corrected partitioner returns a partitioning closed under incoming and outgoing edges, and no relation crosses partitions |
| Scoring.SharedRow | pkg/core/entanglement.go:92-96 | a row's entries are pairs of that group with one of its keys |
| Scoring.SharedEntries | pkg/core/entanglement.go:91-97 | every counted entry starts at a member of the partition |
| Scoring.Qualifies | pkg/core/entanglement.go:112 | with every group stored under its own name, a pair qualifies exactly when g has rules referencing o and o has ports |
| Scoring.ReferenceFactor | pkg/core/entanglement.go:113-119 | the factor names g and o, its value is the rule count times the port count its reason reports, and it is positive exactly when the pair qualifies |
| Scoring.RowFactors | pkg/core/entanglement.go:111-121 | each factor of a row names that group as the referencing group and a member as the referenced one |
| Scoring.ReferenceFactors | pkg/core/entanglement.go:110-122 | every reference factor names a member as the referencing group |
| Scoring.CountRow | pkg/core/entanglement.go:92-96 | the inner loop counts exactly the positive shared-port entries of one group |
| Scoring.CountShared | pkg/core/entanglement.go:90-97 | the nested loops count exactly the positive shared-port entries of all members |
| Scoring.AppendRow | pkg/core/entanglement.go:111-121 | one group's loop appends, without repetition, exactly one factor for each member o it references where o has ports |
| Scoring.CollectReferences | pkg/core/entanglement.go:110-122 | the emitted reference factors are exactly one per qualifying ordered pair (g, o), self-pairs included, and none repeats |
| Scoring.SumValues | pkg/core/entanglement.go:124-127 | the score value is the sum of the factor values, 0 when there are none |
| Scoring.SumOfRemove | pkg/core/entanglement.go:124-127 | removing a factor from a set takes exactly its value off the set's sum |
| Scoring.TotalAppend | pkg/core/entanglement.go:124-127 | the sum over a concatenation is the sum of the sums |
| Scoring.TotalOfDistinct | pkg/core/entanglement.go:124-127 | the sum of a sequence without repetitions does not depend on its order |
| Scoring.DistinctMultiset | pkg/core/entanglement.go:110-122 | a factor list without repetitions holds each of its elements exactly once |
| Scoring.ScoreOf | pkg/core/entanglement.go:89-129 | value is the sum of the factors and equals `ScoreValue`; as a multiset the factors are exactly `ScoreFactors`: the shared-port factor, first and only when the halved count is positive, then one reference factor per qualifying pair, none repeated |
| Scoring.HalfOfSymmetric | pkg/core/entanglement.go:98-99 | a symmetric set of entries without self-entries has twice as many entries as unordered pairs |
| Scoring.PairCountCountsPairs | pkg/core/entanglement.go:98-99 | with symmetric sharing inside the partition, the halved count is the number of unordered pairs of groups sharing ports |
| Ranking.LexLeTotalAt | pkg/core/entanglement.go:137 | Go's string order compares any two strings |
| Ranking.LexLeTransitiveAt | pkg/core/entanglement.go:137 | Go's string order is transitive |
| Ranking.LexLeAntisymmetricAt | pkg/core/entanglement.go:137 | two strings that sort no later than each other are equal |
| Ranking.LexLeIsTotalPreorder | pkg/core/entanglement.go:137 | the order `sort.Strings` uses is a total preorder |
| Ranking.AtLeastIsTotalPreorder | pkg/core/entanglement.go:140-142 | the descending-by-value comparison is a total preorder |
| Ranking.SortBy | pkg/core/entanglement.go:137-142 | sorting in place leaves the array ordered by the comparison and a permutation of its old contents |
| Ranking.InsertLast | pkg/core/entanglement.go:137-142 | one insertion step extends the sorted prefix by one and keeps the contents |
| Ranking.SortedHeadsAgree | pkg/core/entanglement.go:137 | two sorted string sequences with the same elements start with the same string |
| Ranking.SortedUnique | pkg/core/entanglement.go:137 | two sorted string sequences with the same elements are equal |
| Ranking.SortedTail | pkg/core/entanglement.go:137 | dropping the head of a sorted sequence leaves it sorted |
| Ranking.TailMultiset | pkg/core/entanglement.go:137 | dropping the head removes exactly that element |
| Ranking.CollectNames | pkg/core/entanglement.go:133-136 | the names collected are exactly the partition's keys, each once |
| Ranking.TopReasons | pkg/core/entanglement.go:144-151 | the reasons are those of the first min(3, n) factors, in order |
| Ranking.LogScore | pkg/core/entanglement.go:132-162 | the record holds the project ID, size and score value; names are the keys in ascending order; the factors are reordered into a non-increasing permutation; the reasons are those of its first min(3, n) |
| Ranking.NamesAreDetermined | pkg/core/entanglement.go:133-137 | the logged names do not depend on map iteration order |
| Collect.CollectData | pkg/core/db.go:67-131 | a failed first or second pass returns no map and that error; otherwise the map after all three passes, with the third pass's error if any; any returned map is consistent and has exactly the projects, groups and port counts of the first pass |
| Collect.ScanGroups | pkg/core/db.go:76-88 | the group scan applies the callback to every row, in order: the result is the first pass over the rows |
| Collect.ScanSharedPorts | pkg/core/db.go:98-109 | the shared-port scan applies the callback to every row, in order |
| Collect.ScanReferences | pkg/core/db.go:119-128 | the reference scan applies the callback to every row, in order |
| Collect.AddGroup | pkg/core/db.go:76-88 | the row's project exists afterwards, with its UUID kept or set to its ID when new; the group is stored under its name with the row's port count and empty relation maps; other projects and the project's other groups are unchanged, and no other group appears |
| Collect.AddSharedPorts | pkg/core/db.go:98-109 | when the project and both groups exist, each group records the row's count for the other; otherwise the map is unchanged |
| Collect.AddReference | pkg/core/db.go:119-128 | when the project and both groups exist, the referencing group records the row's count for the remote one; otherwise the map is unchanged |
| Collect.GroupPassBlank | pkg/core/db.go:76-88 | after the first pass every project is stored under its UUID and every group under its name, with empty relation maps |
| Collect.GroupPassMembers | pkg/core/db.go:76-88 | the first pass holds exactly the projects and the groups that have a row |
| Collect.GroupPassProjects | pkg/core/db.go:77-81 | the first pass holds exactly the projects that have a group row |
| Collect.GroupPassGroups | pkg/core/db.go:82-87 | the first pass holds a group of a project exactly when some row names both |
| Collect.AddGroupMembers | pkg/core/db.go:77-87 | after a group row, a project holds a group exactly when it held it before or the row names it |
| Collect.GroupPassLastRowWins | pkg/core/db.go:82-87 | a group's port count is that of its last row |
| Collect.AddSharedPortsEffect | pkg/core/db.go:98-109 | a shared-port row assigns its count to both groups, keyed by each other, when the project and both groups exist, and otherwise changes nothing; projects, groups and reference counts are unchanged |
| Collect.AddReferenceEffect | pkg/core/db.go:119-128 | a reference row assigns its count to the referencing group only, when the project and both groups exist, and otherwise changes nothing; projects, groups and shared-port counts are unchanged |
| Collect.AddSharedPortsConsistent | pkg/core/db.go:104-107 | one shared-port row keeps the counts symmetric and the relations within the project |
| Collect.AddReferenceConsistent | pkg/core/db.go:124-126 | one reference row keeps the counts symmetric and the relations within the project |
| Collect.SharedPassConsistent | pkg/core/db.go:98-109 | the second pass keeps the project map consistent |
| Collect.ReferencePassConsistent | pkg/core/db.go:119-128 | the third pass keeps the project map consistent |
| Collect.SharedPassLayout | pkg/core/db.go:98-109 | the second pass adds or removes no project or group and changes no UUID, name or port count |
| Collect.ReferencePassLayout | pkg/core/db.go:119-128 | the third pass adds or removes no project or group and changes no UUID, name or port count |
| Collect.CollectionLayout | pkg/core/db.go:67-131 | the collected map has the layout the first pass gave it |
| Collect.CollectionMembers | pkg/core/db.go:67-131 | the collected map holds exactly the projects, and within them the groups, that have a group row |
| Metrics.MaxIsMaximum | main.go:116-125 | the maximum bounds every score and is one of them, and is 0 when there is none |
| Metrics.MaxAtMostSum | main.go:122-125 | the highest score is at most the total |
| Metrics.LoggedPositions | main.go:127-129 | exactly the partitions with a score strictly above the limit are logged, each once, in order |
| Metrics.LogsStep | main.go:127-129 | scoring one more partition extends the log records by its record exactly when it is logged |
| Metrics.LoggedStep | main.go:127 | one more score appends its position to the logged ones exactly when it is above the limit |
| Metrics.AggregateStep | main.go:122-125 | one more score adds to the total and raises the maximum only when it is higher |
| Metrics.ScoresStep | main.go:121 | scoring one more partition extends the scores by its score |
| Metrics.ScoreOne | main.go:121-129 | a partition's value is its score; it is logged exactly when that is above the limit, and the record carries the project ID, the size, the score, the names in ascending order and the reasons of the first three factors of a non-increasing ranking of its score factors |
| Metrics.ScorePartitions | main.go:120-130 | the maximum and the total are the max and the sum of the partitions' scores, and the records are exactly those of the partitions above the limit, in partition order, each as `ScoreOne` describes it |
| Metrics.LogsAboveLimit | main.go:127-129 | every record of a project names that project and carries a score above the limit |
| Sharing.SharingStaysWithin | pkg/core/entanglement.go:56-69 | a positive shared-port entry of a partition member names a member of the same partition, whichever direction the fill follows |
| Sharing.SharedEdgeBack | pkg/core/db.go:104-105 | a shared-port entry gives an edge back from the other group, along either direction |
| Sharing.PartitionsShareWithin | pkg/core/entanglement.go:98-99 | in every partition of a consistent project without self-entries, sharing stays among the members and is symmetric, so the halved count is the number of unordered pairs of members sharing ports |
| Metrics.PartitionAlong | pkg/core/entanglement.go:50-86 | the chosen partitioner returns a partitioning along its direction, and along both directions no relation crosses partitions |
| Metrics.ProjectRound | main.go:114-130 | a project's gauges are the max and sum of the scores of a partitioning of its groups (by the program's partitioner or the corrected one); its records are exactly those of its partitions above the limit, in order, and each names the project |
| Metrics.MeasuredStep | main.go:114-135 | measuring one more project keeps every project measured so far |
| Metrics.RecordsOfAppend | main.go:127-129 | picking a project's records out of two logs in sequence is picking them out of each |
| Metrics.RecordsOfOwn | main.go:127-129 | a log of one project's records is all of that project's records |
| Metrics.RecordsOfOthers | main.go:127-129 | a log without a project's records holds none for it |
| Metrics.SplitsStep | main.go:114-129 | appending the records of a project not yet logged keeps every project's records, as picked out of the log, equal to those recorded for it |
| Metrics.MeasuredOnLog | main.go:114-135 | when each project's recorded records are what the log holds for it, every project is measured on the log itself |
| Metrics.CollectMetrics | main.go:102-136 | the round fails exactly when a scan fails; otherwise every project of the collection gets gauges measured on a partitioning of its groups, the records of each project, picked out of the log in order, are exactly those of its partitions above the limit, and every record names a collected project; with the corrected partitioner no relation crosses two partitions |
| Config.Digit | pkg/core/config.go:62 | a digit value below ten maps to a digit character of that value |
| Config.ParseUint64 | pkg/core/config.go:62 | a successful parse is at most 2^64 - 1 |
| Config.FormatDecimal | pkg/core/config.go:62 | the decimal form of a number is a non-empty digit string |
| Config.DecimalValueOfFormat | pkg/core/config.go:62 | the decimal value of a number's decimal form is the number |
| Config.ParseFormatRoundTrip | pkg/core/config.go:58-66 | parsing a number's decimal form gives the number back exactly when it fits in 64 bits |
| Config.ColumnForRelease | pkg/core/config.go:67-74 | kilo, liberty and mitaka select `tenant_id`; newton, ocata, pike and queens select `project_id`; any other release has no column |
| Config.MatchAt | pkg/core/config.go:79 | a match lies inside the text, starts with `p` and consists of word characters |
| Config.ApplyTo | pkg/core/config.go:82-84 | a query without a whole-word `project_id` is returned unchanged, and with the column name `project_id` every query is |
| Config.ReadConfigFromEnv | pkg/core/config.go:54-77 | a missing URI or listen address is fatal, in that order; next an invalid limit is fatal, before the release is read; next an empty release is fatal as a missing variable and any other unknown release as unknown; it succeeds exactly when none of these holds, the limit being 50 by default and otherwise the 64-bit decimal parse, and each other field what the environment says |
| Config.RewriteWithoutMatch | pkg/core/config.go:79-84 | text without a whole-word `project_id` is left unchanged |
| Config.RewriteWithNeedle | pkg/core/config.go:82-84 | rewriting to `project_id` itself leaves every suffix unchanged |
| Config.ApplyToBareWord | pkg/core/config.go:79-84 | the query `project_id` alone becomes the column name |
| Config.EmbeddedIsNoMatch | pkg/core/config.go:79 | `project_id` preceded or followed by a word character is no match |
| Config.ApplyToTrailingWordChar | pkg/core/config.go:79-84 | `project_ids` is left unchanged |
| Config.ApplyToLeadingWordChar | pkg/core/config.go:79-84 | `my_project_id` is left unchanged |
| Config.NeedleIsWord | pkg/core/config.go:79 | every character of `project_id` is a word character |
| Config.MatchLeft | pkg/core/config.go:79 | a non-word character ends what a match to its left can see |
| Config.MatchRight | pkg/core/config.go:79 | a non-word character ends what a match to its right can see |
| Config.RewriteRight | pkg/core/config.go:79-84 | rewriting past a non-word character is rewriting the text after it on its own |
| Config.RewriteLeft | pkg/core/config.go:79-84 | rewriting across a non-word character is rewriting both sides on their own |
| Config.ApplyToSplits | pkg/core/config.go:79-84 | the rewrite commutes with splitting the query at a non-word character: every whole-word match is replaced and every other character kept |
| Findings.ExampleEdges | pkg/core/entanglement.go:63 | in the example the only followed edge is B to A |
| Findings.SeedAStaysAlone | pkg/core/entanglement.go:56-69 | seeded at A, the flood fill reaches only A |
| Findings.OutcomeSeededAtA | pkg/core/entanglement.go:50-86 | seeded at A first, the partitions are {A} and {B} |
| Findings.OutcomeSeededAtB | pkg/core/entanglement.go:50-86 | seeded at B first, the only partition is {A, B} |
| Findings.SumOfSingle | pkg/core/entanglement.go:124-127 | a single factor sums to its value |
| Findings.ExampleScores | pkg/core/entanglement.go:89-129 | {A} and {B} score 0, {A, B} scores 1 |
| Findings.SeedOrderChangesTotal | main.go:120-125 | the split leaves a reference between partitions, and the project's total is 0 or 1 depending on the seed |
| Findings.OnlyPart | pkg/core/entanglement.go:50-86 | a partition other than the one holding A and B would be empty |
| Findings.PairTogether | pkg/core/entanglement.go:30-32 | a separated covering puts A and B in one partition |
| Findings.WholeExample | pkg/core/entanglement.go:30-32 | a submap holding A and B is the whole example |
| Findings.SeparatedJoinsPair | pkg/core/entanglement.go:30-32 | the only separated partitioning of the example is the single partition {A, B} |
| Findings.CorrectedJoinsPair | pkg/core/entanglement.go:30-32 | the corrected partitioner's only outcome on the example is {A, B} |

## Left out

- SQL text, `db.Query`, `rows.Scan` and the `scan`/`args` helpers are database I/O (pkg/core/db.go:40-64, 133-151). Each pass is given as its rows and the error that ended it. The inner joins of the queries are not modelled.
- `rows.Err()` after the loop and closing the rows are not part of the source. A failure the driver reports only through `rows.Err()` is therefore invisible to the program and to the model.
- Prometheus registration, the gauge updates, the HTTP listener and the five-minute goroutine are I/O and concurrency (main.go:69-100, 132-134). A round's gauge values are its result instead.
- Metrics.CollectMetrics: gauges of projects that vanish between rounds keep their old values in the source. The model describes one round only.
- Metrics.CollectMetrics: the `float64` conversion of the gauge values is not modelled.
- `sql.Open`, `os.Getenv`, `util.LogFatal` and `util.LogInfo` are I/O. The environment is a map parameter, a fatal log is a `Failure` result, and a log line is a `LogRecord`.
- The `fmt.Sprintf` wording of the reasons and the `strings.Join` formatting of the log line are presentation. A reason keeps its arguments (`Scoring.Reason`).
- `uint64` wrap-around in the products and sums (pkg/core/entanglement.go:94, 114, 126; main.go:122) is not modelled: counts and scores are unbounded naturals.
- main.go's own `Config` and `mustGetenv` (main.go:37-67) repeat pkg/core/config.go. The parsing is modelled once, in `Config.ReadConfigFromEnv`. main.go never calls that function, and it never calls `applyTo`. The queries name `tenant_id` directly (pkg/core/db.go:41, 51, 58).
- Config.ApplyTo: `$` references in the replacement text are not expanded as Go's `ReplaceAllString` would. The two column names the release table yields contain no `$`.
- Scoring.ScoreOf: the order of the reference factors follows Go's map iteration. It is stated only as "exactly these factors, none twice".
- Ranking.LogScore: the tie order of `sort.Slice` is unspecified in Go. It is stated only as sorted and a permutation. Go sorts the caller's factor slice in place; the model returns the sorted factors as `ranked` instead of reordering `score.factors`.
- Collect.CollectData: Neutron may hold two groups with the same name in one project. The group query groups by project and name (pkg/core/db.go:40-45), so such groups reach the callback as one row whose port count covers the bindings of both. The model takes arbitrary rows, so it does not capture this merging by the query. When it is given several rows for one name, it keeps the last one (`Collect.GroupPassLastRowWins`).
- Sharing.PartitionsShareWithin: it requires that no group counts ports shared with its own name (`Model.NoSelfSharing`). The shared-port query pairs two different group IDs (pkg/core/db.go:47-55), but two groups of one name in one project are stored under one key, so a port bound to both becomes an entry of that name for itself. For such a project the halved count is not the number of pairs, and the lemma says nothing about it.
- Metrics.CollectMetrics: the partitions each project was measured on are a ghost result (`partitionsOf`). The source does not keep them after the round.
- Partitioning.PartitionSecurityGroups: the recursion of the closure is modelled by a worklist. The order of the partitions and of the members inside each follows the arbitrary choices.

## Findings

| source | as written | input that shows it | evidently intended | confidence | as-written member | corrected member |
|---|---|---|---|---|---|---|
| pkg/core/entanglement.go:56-69 | the flood fill follows only the groups a member itself refers to (its own shared-port and reference maps), so a group referenced by another is not joined with it when it is seeded first | one project with group A (1 port) and group B (1 port, one rule referencing A): seeded at A the partitions are {A} and {B}, both scoring 0, so the project's total is 0; seeded at B the partition {A, B} scores 1 | partitions are the connected components of the relation in both directions (the comment at entanglement.go:30-32), so the reference B to A always counts and the result does not depend on map order | not executed | Findings.OutcomeSeededAtA | Partitioning.PartitionConnected |

The lemmas `Findings.SeedOrderChangesTotal` and `Findings.OutcomeSeededAtB` show that the total depends on the seed. `Findings.CorrectedJoinsPair` shows that the corrected partitioner always returns {A, B}. `Metrics.CollectMetrics` takes the direction as a parameter: `Outgoing` gives the gauges the exporter publishes, and `EitherWay` gives the corrected ones.
