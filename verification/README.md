# Verification of the TRUF.NETWORK node repository

Dafny models of the parts of the repository that carry logic of their own, with proofs of what they promise. To verify:
`dafny verify dfyconfig.toml`.

## What is modelled

- **Benchmark trees** (`Trees.dfy`). The queue loop that builds a b-ary tree of streams in an array, the logarithm
  that bounds its depth, the guard that uses the bound, and the queue loop that prints the edges. The code is proved
  to refine the closed form `parent(i) = (i-1)/b`, and depth, leaf count and edge listing follow from that form.
- **Memory collector** (`MemCollector.dfy`). One collecting goroutine and any number of callers share a one-slot error
  channel, a channel closed as a signal, a cancel context and a wait group. Every action is an atomic step, a run is
  any interleaving, and the theorems speak about all reachable states or all runs.
- **Benchmark report and CSV file** (`Report.dfy`, `Csv.dfy`, `Results.dfy`). The nested loops that turn a flat list of
  results into tables, and the save, append and load cycle of a file of records. A struct type is the list of its
  fields, each with the text of its json tag and its kind.
- **Insertion of primitive events** (`PrimitiveInsertion.dfy`). The single and the batch action over one table with its
  primary key, including the recursive index query. The checks of a batch are loops over the rows that its helper actions
  return, whatever these are. `TimeTravel.dfy` connects it with the composed query: insertions at
  a later height are invisible to a query frozen before it.
- **Composed queries** (`Taxonomy.dfy`, `TaxonomyWeights.dfy`, `ComposedPoints.dfy`, `ComposedTimeline.dfy`, `ComposedDelta.dfy`,
  `ComposedSeries.dfy`, `ComposedQuery.dfy`, `ComposedMeaning.dfy`). The SQL that computes a composed stream: recursive
  resolution of overshadowed taxonomies into weighted intervals, selection of the primitives' values, the merge of value
  changes and weight changes into one timeline per primitive, the delta sums over window functions, and the rows that
  are returned. Window functions with ties are modelled as SQL leaves them: a sum over a window ordered by time includes
  all rows of equal time, LAG looks one row back, and the order of simultaneous rows is arbitrary. Values and weights
  are real numbers.
- **Alternative domain manager and certificate names** (`DomainManager.dfy`, `CertNames.dfy`). A class with the fields
  that the Go object updates, the certificate decision with all its fallbacks, the write-once zone, the registry of
  targets and the record loop. Go maps are walked in an arbitrary order.
- **Test tables** (`MarkdownTable.dfy`, `ComposedSetup.dfy`). The markdown table parser against a printer, and the pivot
  from a table to one data list per stream.
- **Build environment** (`BuildEnv.dfy`). The last-wins filter and the command that uses it.
- `Text.dfy`, `Sequences.dfy`, `Ordering.dfy`, `Numbers.dfy` and `Wrappers.dfy` hold what the others share.

Loops of the Go code and of the SQL actions are loops here. Each is proved equal to a function, and the lemmas are about
that function. Declarative SQL queries are functions and relations over lists of rows.

## What turned out not to hold

- `ComposedDelta.EveryOrderExactIff`, `ComposedQuery.ContestedExample`: the delta sums are not right for every order of
  simultaneous rows. They are right exactly when no time carries a value change of a primitive together with two or more of its
  weight changes. Such a time arises when a taxonomy is redefined at the time of a value change
  (`ComposedTimeline.RedefinitionIsContested`). Sorting value rows first would always be right (`ComposedDelta.ExactWhen`).
- `ComposedPoints.CarriedForwardIff`, `ComposedPoints.StaleValueExample`, `ComposedPoints.MissedZeroExample`: a value
  recorded inside the range while its stream has no weight is not read, so a later weight applies to an older value, or to
  none. The query weighs a primitive as its whole series would at every time of the range exactly when each such value that is
  still the latest at a time with a weight equals the last value before it that is read, and there is one. The second example
  has a first value of zero: no value is not the value zero, because only the latter has a weight in the average.
- `PrimitiveInsertion.AgreeIff`, `PrimitiveInsertion.AsWrittenAgreesIff`, `PrimitiveInsertion.WalletRefusedOnlySinglyExample`: a
  batch and its single insertions need not agree. They do whenever the helpers of the batch answer row by row. As written,
  the wallet helper returns rows only for a true flag, so the batch's loop over them refuses nothing, and
  is_primitive_stream_batch (internal/migrations/001-common-actions.sql:582-626) ends in a SELECT without RETURN; whether its
  rows reach the caller is left open, and the exact condition is proved for both readings.
- `ComposedQuery.DistinctTimesIff`, `ComposedQuery.RepeatedValueExample`: the comment in the final union that times should
  be distinct is not always true; a repeated value gives a repeated row. The code is followed.
- `MemCollector.SignalMeaning`, `MemCollector.SignalAfterErrorIsEmpty`: a nil answer of `WaitForFirstSample` can mean
  neither a sample nor a waiting error. With nothing recorded, an error waits exactly when no earlier call has had one.
- `MarkdownTable.ParsingUndoesPrinting`, `MarkdownTable.HeaderIsNotTrimmed`, `MarkdownTable.IndentedHeaderExample`: a last
  cell that starts with `#` is dropped as a comment. White space on either side of the header line, where the trim of the
  whole text leaves it, breaks every table with rows, because rows are trimmed and the header line is not; this is so for an
  indented table whose header comes after a comment line. White space around all other lines does not matter.
- `ComposedSetup.AlignedIff`, `ComposedSetup.PivotOutcome`: a later column named `event_time` shifts the data of the columns
  behind it, and the program panics exactly on a non-empty cell beyond the streams.

## Model

| member | source | states |
|---|---|---|
| Trees.NewTree | internal/benchmark/trees/trees.go:38-79 | the queue loop ends and leaves the closed form: every slot filled, parent of i is (i-1)/b, the children of i are the run b*i+1 .. min(b*i+b, n-1), and for a branching factor of at least 1 a node is a leaf exactly when it has none; below 1 only the root is linked, it has no children, is marked a leaf only when it is the one node, and the other slots stay zero values; for b >= 2 the stored depth is the exact ceiling logarithm |
| Trees.AddChildren | internal/benchmark/trees/trees.go:62-75 | the inner loop gives the dequeued node exactly its run of children and appends that run to the queue |
| Trees.CalculateTreeDepth | internal/benchmark/trees/trees.go:81-83 | the least k with b^k >= n |
| Trees.DepthMonotone | internal/benchmark/trees/trees.go:58-76 | breadth first: a later node is never less deep |
| Trees.DepthBound | internal/benchmark/trees/trees.go:38-83 | the greatest depth d and the computed depth k satisfy d <= k <= d + 1 |
| Trees.DepthExact | internal/benchmark/trees/trees.go:81-83 | the computed depth is the real one if and only if n <= b^d |
| Trees.CheckDepth | internal/benchmark/benchmark.go:181-183 | refuses exactly the trees whose stored depth exceeds the limit, for every branching factor; from 2 on, an accepted tree has no node deeper than the limit and a refused one has a node at least that deep |
| Trees.ChildrenPartition | internal/benchmark/trees/trees.go:58-76 | the children lists, read in node order, are 1, 2, ..., n-1 |
| Trees.OneComposedParent | internal/benchmark/setup.go:209-229 | every non-root stream is the child of exactly one stream, and that one is composed |
| Trees.LeafIffChildless | internal/benchmark/setup.go:45-49 | for a branching factor of at least 1 the primitive streams are exactly the nodes without children |
| Trees.LeafTotal | internal/benchmark/trees/trees.go:58-76 | there are n - ceil((n-1)/b) leaves |
| Trees.ToDisplay | internal/benchmark/trees/trees.go:91-109 | the edges of the subtree of the start node, each once, by increasing child |
| Trees.DisplayReadsBack | internal/benchmark/trees/trees.go:91-109 | a reader who splits the display into lines and numbers gets, for every listed child in order, its parent (i-1)/b and then the child |
| Trees.ListChildren | internal/benchmark/trees/trees.go:100-105 | no child of the current node has been visited: all are queued and listed |
| Trees.BetweenComplete | internal/benchmark/trees/trees.go:91-109 | the listed nodes are exactly the descendants of the start node, in increasing order |
| Trees.RootShowsEveryEdge | internal/benchmark/trees/trees.go:91-109 | from the root the children listed are 1, ..., n-1 |
| MemCollector.StepKeeps | internal/benchmark/util/mem_collector.go:44-154 | every step of every goroutine keeps the invariant |
| MemCollector.ReachableInv | internal/benchmark/util/mem_collector.go:44-154 | the invariant holds in every reachable state |
| MemCollector.ErrorNeverReturnedTwice | internal/benchmark/util/mem_collector.go:119-154 | at most one error is sent; the errors returned are the sent one or, while it waits in the channel, none |
| MemCollector.ErrorReturnedByStop | internal/benchmark/util/mem_collector.go:144-154 | once any Stop has returned, a sent error has been returned exactly once |
| MemCollector.CollectorNeverBlocks | internal/benchmark/util/mem_collector.go:47-98 | in no reachable state does the send wait or the close panic, and the goroutine can always move until it is done |
| MemCollector.OneCloseOneSend | internal/benchmark/util/mem_collector.go:47-98 | every run closes the signal channel at most once and sends at most one error |
| MemCollector.MaxOfIsMax | internal/benchmark/util/mem_collector.go:89-91 | the recorded maximum is an upper bound of the samples and is 0 or one of them |
| MemCollector.DoneIsFinal | internal/benchmark/util/mem_collector.go:131-141 | after the goroutine is done neither samples nor maximum change |
| MemCollector.UsageAfterStop | internal/benchmark/util/mem_collector.go:84-91 | whatever follows a returned Stop, the usage reported is at least usage - cache, as a 64-bit number, of every sample that any action of the run decodes, and it is 0 or one of these |
| MemCollector.SamplesAreDecoded | internal/benchmark/util/mem_collector.go:84-91 | the recorded samples are exactly what the actions of the run decode |
| MemCollector.UsageReportsRise | internal/benchmark/util/mem_collector.go:131-141 | in every run the reported usages never fall |
| MemCollector.SignalMeaning | internal/benchmark/util/mem_collector.go:118-129 | when nil is answered on the signal with nothing recorded, an error waits in the channel if and only if no earlier call has had one |
| MemCollector.FirstSignal | internal/benchmark/util/mem_collector.go:118-129 | a nil answer, as long as no earlier answer was an error, means a recorded sample or a waiting error |
| MemCollector.SignalAfterErrorIsEmpty | internal/benchmark/util/mem_collector.go:118-129 | a run in which the second wait returns nil with neither sample nor error left |
| MemCollector.SignalGivenIff | internal/benchmark/util/mem_collector.go:47-98 | when the goroutine is done, the signal was given if and only if there was a sample or an error |
| MemCollector.StopFinishes | internal/benchmark/util/mem_collector.go:144-154 | without further samples the goroutine takes at most nine more steps and is never stuck, so the join is reached |
| MemCollector.CallsAreInOrder | internal/benchmark/util/mem_collector.go:118-154 | in every run each caller makes its calls one after the other, each in the order of its steps, whatever the others do in between |
| MemCollector.OneAnswerPerCall | internal/benchmark/util/mem_collector.go:118-154 | every completed call has exactly one answer, in the order of completion |
| MemCollector.CancelSeenAfterStop | internal/benchmark/util/mem_collector.go:119-129 | a wait answers that the context was cancelled only after some Stop has begun |
| MemCollector.CallerCanGoOn | internal/benchmark/util/mem_collector.go:118-154 | when each step of a call can be taken: GetMaxMemoryUsage never waits, WaitForFirstSample waits for error, signal or cancel, Stop waits for the goroutine only |
| Report.ValidateSampleCounts | internal/benchmark/benchexport/markdown.go:197-206 | accepts exactly the results whose sample counts all agree |
| Report.GroupResults | internal/benchmark/benchexport/markdown.go:229-243 | the map holds every key that occurs, with the duration of its last occurrence |
| Report.DistinctSorted | internal/benchmark/benchexport/markdown.go:250-289 | the sorted listing of a field's values |
| Report.DistinctProcedures | internal/benchmark/benchexport/markdown.go:296-308 | the sorted listing of the procedures of a branching factor |
| Report.DistinctVisibilities | internal/benchmark/benchexport/markdown.go:311-323 | the sorted listing of the visibilities of a procedure |
| Report.DistinctUnixModes | internal/benchmark/benchexport/markdown.go:326-338 | the modes that occur, false before true |
| Report.HasData | internal/benchmark/benchexport/markdown.go:352-366 | the search with early exit finds whether a column has a value |
| Report.ExistingQtyStreams | internal/benchmark/benchexport/markdown.go:341-372 | exactly the columns that have a value, in order |
| Report.WriteRow | internal/benchmark/benchexport/markdown.go:155-182 | the cells of a row, and whether one of them is a number |
| Report.WriteTableForUnixMode | internal/benchmark/benchexport/markdown.go:126-190 | one table: the columns and rows that have data |
| Report.WriteReport | internal/benchmark/benchexport/markdown.go:76-110 | the nested loops produce the tables section by section |
| Report.ReadPrintedTable | internal/benchmark/benchexport/markdown.go:139-182 | reading a table back gives all measurements of its section: leaving out rows and columns loses nothing |
| Report.TableCovers | internal/benchmark/benchexport/markdown.go:126-190 | a table reads back to exactly the measurements of its section, each once |
| Report.ReportCovers | internal/benchmark/benchexport/markdown.go:76-110 | over all tables the numbers are exactly the grouped measurements, each once |
| Report.TableShape | internal/benchmark/benchexport/markdown.go:139-182 | no row and no column is all "-", and every row is as wide as the header |
| Report.ReportShape | internal/benchmark/benchexport/markdown.go:76-110 | the same for every table of the report |
| Report.ReportHasNoEmptyTable | internal/benchmark/benchexport/markdown.go:76-110 | every table has a row: no section without a measurement is written |
| Report.ReportSorted | internal/benchmark/benchexport/markdown.go:76-110 | the tables are strictly ordered by branching factor, then procedure, then visibility, then mode |
| Report.ReportLabelsRise | internal/benchmark/benchexport/markdown.go:134-182 | in every table the row labels and the column labels increase |
| Report.GroupingItems | internal/benchmark/benchexport/markdown.go:229-243 | the grouped entries are the last occurrences of their keys |
| Report.SaveAsMarkdown | internal/benchmark/benchexport/markdown.go:41-119 | succeeds exactly when the sample counts agree and an empty file has a first result; then the cells are, each once, the keys that occur with the duration of their last occurrence, field by field; the tables stand in the order of branching factor, procedure, visibility and mode, and rows and columns in the order of their labels |
| Csv.GetHeader | internal/benchmark/benchexport/csv.go:70-84 | the names of the usable tags in field order, or an error if there is none |
| Csv.GetRow | internal/benchmark/benchexport/csv.go:87-105 | the printed values of the fields with a usable tag |
| Csv.ColumnsAre | internal/benchmark/benchexport/csv.go:70-105 | exactly the fields whose tag is neither empty nor - have a column, in field order, under the tag up to its first comma, with what the value prints as |
| Csv.CsvFile.SaveOrAppend | internal/benchmark/benchexport/csv.go:28-67 | appends the rows, after a header if the file was empty; an error leaves an empty file empty |
| Csv.LoadItem | internal/benchmark/benchexport/csv.go:135-155 | a struct from a record through the header index, or the first bad field's error |
| Csv.LoadCSV | internal/benchmark/benchexport/csv.go:112-159 | all records, or the first error: ragged file, empty file, bad field |
| Csv.SetFieldOfShow | internal/benchmark/benchexport/csv.go:162-195 | what a value prints as is read back to the same value for strings, integers of every width and booleans; other kinds are refused |
| Csv.TruthTexts | internal/benchmark/benchexport/csv.go:184-189 | which texts are read as true and which as false; every other is an error |
| Csv.HeaderOnce | internal/benchmark/benchexport/csv.go:44-64 | after any run of saves the file is one header and all rows in order |
| Csv.LoadAfterSaves | internal/benchmark/benchexport/csv.go:28-159 | loading after any run of saves gives the concatenation of all batches, up to fields without a usable tag; it fails exactly when something was saved and a tagged field has an unsupported kind |
| Csv.ResultsRoundTrip | internal/benchmark/benchexport/csv.go:13-22 | for the benchmark's own record type every run of saves loads back unchanged |
| Text.ParseIntOfIntString | internal/benchmark/benchexport/csv.go:166-171 | printing and parsing a signed integer is the identity within 64 bits, out of range beyond |
| Text.ParseUintOfNatString | internal/benchmark/benchexport/csv.go:172-177 | the same for unsigned integers |
| PrimitiveInsertion.Indexes | internal/migrations/003-primitive-insertion.sql:80-86 | the recursive query yields exactly 1, ..., n in order, and 1 for n = 0 |
| PrimitiveInsertion.PrimitiveEvents.InsertRow | internal/migrations/003-primitive-insertion.sql:30-32 | one row is added unless a column is NULL or the key exists; otherwise nothing changes |
| PrimitiveInsertion.PrimitiveEvents.InsertRecord | internal/migrations/003-primitive-insertion.sql:5-33 | the action is the single-insertion step; an error changes nothing, and success adds exactly the row under the provider in lower case, the stream, the time and the height |
| PrimitiveInsertion.PrimitiveEvents.InsertRecords | internal/migrations/003-primitive-insertion.sql:40-112 | the action is the batch step: length check, then the first of the three helpers that returns a row with a false flag decides the error, then all rows or none; success adds exactly the rows under the providers in lower case |
| PrimitiveInsertion.PrimitiveEvents.InsertSelected | internal/migrations/003-primitive-insertion.sql:87-111 | the statement inserts all selected rows or none |
| PrimitiveInsertion.AgreeIff | internal/migrations/003-primitive-insertion.sql:5-112 | for any rows that the helpers return: a batch and its single insertions in order both fail, or both succeed with the same table, if and only if the rows could not be inserted anyway or some helper row holds a false flag exactly when some record fails a single check |
| PrimitiveInsertion.AlwaysAgreeIff | internal/migrations/003-primitive-insertion.sql:5-112 | the two agree on every table if and only if they agree in this way for records that fit an empty table |
| PrimitiveInsertion.BatchIsSingles | internal/migrations/003-primitive-insertion.sql:5-112 | in particular, with helpers that answer row by row as the single checks do, a batch succeeds exactly when its single insertions succeed, with the same final table |
| PrimitiveInsertion.WalletBatch | internal/migrations/002-authorization.sql:705-737 | returns one true flag per place at which both of its helpers say true, and so never a false one |
| PrimitiveInsertion.AsWrittenAgreesIff | internal/migrations/003-primitive-insertion.sql:40-78 | with the helpers as written, batch and single insertions agree if and only if the rows could not be inserted anyway, or some record fails a check that the batch makes, or every record passes all single checks |
| PrimitiveInsertion.WalletRefusedOnlySingly | internal/migrations/003-primitive-insertion.sql:5-112 | the failing family: for a complete new record of an existing primitive stream whose caller the single check does not allow, the single insertion fails and the batch of it succeeds |
| PrimitiveInsertion.WalletRefusedOnlySinglyExample | internal/migrations/003-primitive-insertion.sql:5-112 | a concrete input of that family |
| PrimitiveInsertion.PutAllMeaning | internal/migrations/000-initial-data.sql:84-96 | inserting rows succeeds if and only if they are complete and their keys are new and pairwise different; the table then gains exactly these rows |
| PrimitiveInsertion.InsertedRows | internal/migrations/003-primitive-insertion.sql:11-32 | successful insertions, in a batch or one by one, add exactly one row per record: provider of the same length with A to Z moved by 32 code points and all else kept, stream, time, height and value |
| PrimitiveInsertion.CaseVariantsCollide | internal/migrations/003-primitive-insertion.sql:5-112 | two records for one stream and time whose providers differ only in the case of letters never both enter at one height, neither in a batch nor one by one |
| PrimitiveInsertion.LaterVariantIsRefused | internal/migrations/003-primitive-insertion.sql:5-112 | nor does the second enter by a later insertion at the same height |
| PrimitiveInsertion.SingleOutcome | internal/migrations/003-primitive-insertion.sql:5-33 | which check decides the outcome of a single insertion, for provider and caller in lower case |
| PrimitiveInsertion.BatchOutcome | internal/migrations/003-primitive-insertion.sql:40-112 | which helper decides the outcome of a batch, for providers and caller in lower case |
| PrimitiveInsertion.BatchSucceedsIff | internal/migrations/003-primitive-insertion.sql:40-112 | a batch succeeds if and only if no helper row holds a false flag, no record has a NULL, and the keys are new and pairwise different; then the table gains exactly its rows |
| PrimitiveInsertion.BatchInAnyOrder | internal/migrations/003-primitive-insertion.sql:40-112 | rearranging a successful batch gives the same table, unless a helper refuses the rearranged one |
| Taxonomy.SelectedIsInForce | internal/migrations/006-composed-query.sql:113-165 | for any time of the range, a definition row is selected with that time in its interval if and only if it is enabled, belongs to the parent, has started, and every other started enabled definition of the parent started earlier, or at the same time with no higher group sequence; both anchors select the same |
| Taxonomy.SelectedMeetsRange | internal/migrations/006-composed-query.sql:113-140 | nothing is selected that the range does not need: exactly the enabled definitions of the parent with the highest group sequence of their start, that start by the end of the range and are not replaced by its start |
| Taxonomy.LastTimeIs | internal/migrations/006-composed-query.sql:110-131 | a definition counts until one before the next start of the parent by the end of the range, or for good |
| Taxonomy.HierarchyIsPaths | internal/migrations/006-composed-query.sql:101-218 | every level of the recursion, cut at a time, is the list of the weighted paths of that length in force then |
| TaxonomyWeights.EmptyLevelEnds | internal/migrations/006-composed-query.sql:164-218 | after an empty level no later level adds a row |
| TaxonomyWeights.AcyclicEnds | internal/migrations/006-composed-query.sql:164-218 | without cycles the recursion ends; the rank of the root bounds the levels |
| TaxonomyWeights.WeightIsSumOfPaths | internal/migrations/006-composed-query.sql:220-244 | the weight of a primitive at a time is the sum over its paths of the product of weights |
| TaxonomyWeights.EveryRowCounts | internal/migrations/006-composed-query.sql:101-218 | every row of every level has a non-empty interval that meets the range |
| ComposedPoints.CarriedForwardIff | internal/migrations/006-composed-query.sql:312-378 | at every time of the range the points that enter the query have the weight, and the weighted value, that the whole series would have, if and only if no value is missed: recorded in the range outside all weight spans, still the latest at a time with a weight, and not equal to a last entering value before it |
| ComposedPoints.StaleValueExample | internal/migrations/006-composed-query.sql:341-371 | numbers for a missed value: 10 is used although the primitive stands at 20 |
| ComposedPoints.MissedZeroExample | internal/migrations/006-composed-query.sql:341-371 | a missed first value of zero: the primitive has weight 0 in the query although it stands at 0 with weight 1 |
| TimeTravel.InsertionAgrees | internal/migrations/003-primitive-insertion.sql:79-111 | an insertion leaves all rows below its height as they are |
| TimeTravel.LaterInsertionsAreNotSeen | internal/migrations/006-composed-query.sql:312-371 | a batch inserted at a greater height changes neither the series nor the points of a query frozen before it |
| TimeTravel.LastInsertionWins | internal/migrations/006-composed-query.sql:341-371 | a value inserted at a height above every version of its stream and time that the query sees is the version that a query frozen at or after it uses |
| ComposedTimeline.ArrangementIsTimeline | internal/migrations/006-composed-query.sql:380-452 | however simultaneous rows are arranged, values change at most once per time |
| ComposedTimeline.WindowSums | internal/migrations/006-composed-query.sql:466-477 | a window sum ordered by time does not depend on the arrangement |
| ComposedTimeline.ValueChangesSum | internal/migrations/006-composed-query.sql:380-387 | the value changes up to a time add up to the last observation |
| ComposedTimeline.WeightChangesSum | internal/migrations/006-composed-query.sql:399-430 | the weight changes up to a time add up to the weights of the spans that contain it |
| ComposedTimeline.TimelineMeaning | internal/migrations/006-composed-query.sql:432-477 | the running sums are the last observation and the weight in force |
| ComposedTimeline.DeltasAreExact | internal/migrations/006-composed-query.sql:454-490 | without a contested time the deltas of a primitive add up to value times weight at every time |
| ComposedTimeline.RedefinitionIsContested | internal/migrations/006-composed-query.sql:399-452 | a taxonomy redefined at the time of a value change makes every arrangement contested, and some arrangement gives a wrong sum |
| ComposedDelta.ProductRule | internal/migrations/006-composed-query.sql:454-490 | the summed contributions are value times weight plus an explicit excess per group of simultaneous rows |
| ComposedDelta.ExactWhen | internal/migrations/006-composed-query.sql:454-490 | the sum is exact without contested times, and also whenever value rows come first |
| ComposedDelta.ContestedGoesWrong | internal/migrations/006-composed-query.sql:454-490 | a contested time has an arrangement with a wrong sum |
| ComposedDelta.EveryOrderExactIff | internal/migrations/006-composed-query.sql:454-490 | every arrangement of simultaneous rows is exact if and only if no time carries a value change together with two or more weight changes |
| ComposedSeries.DeltaIsAStep | internal/migrations/006-composed-query.sql:480-490 | the grouped deltas of a time are the step of the summed states of all primitives |
| ComposedSeries.CumulativeIsReached | internal/migrations/006-composed-query.sql:492-509 | the cumulative sums over the combined times, with zero rows left out, are the summed states at every time |
| ComposedSeries.EffectiveIsLatest | internal/migrations/006-composed-query.sql:538-543 | the effective time is the latest real change |
| ComposedSeries.EveryRow | internal/migrations/006-composed-query.sql:511-607 | every row returned stands at a real change, and its value times the sum of weights is the weighted sum of that time, or it is 0 where the weights add up to 0 |
| ComposedSeries.RealChangeIff | internal/migrations/006-composed-query.sql:480-490 | a time is a real change if and only if the summed states differ from those of the time before |
| ComposedSeries.OutputSorted | internal/migrations/006-composed-query.sql:608-614 | the rows are in the order of their times |
| ComposedSeries.ReadingTheOutput | internal/migrations/006-composed-query.sql:511-614 | carrying the rows forward gives at every time of the range a value that times the sum of weights is the weighted sum, 0 where the weights add up to 0, and nothing exactly before the first change |
| ComposedQuery.QueryIsWeightedAverage | internal/migrations/006-composed-query.sql:312-614 | without contested times the value read times the sum of weights in force is the sum of last value times weight; it is 0 where the weights add up to 0, and there is none only while all sums are 0 |
| ComposedQuery.RealChangesAreChanges | internal/migrations/006-composed-query.sql:480-490 | without contested times the real changes are the times at which the weighted sum or the sum of weights changes |
| ComposedQuery.ContestedExample | internal/migrations/006-composed-query.sql:454-490 | numbers for a contested time: 21 in one arrangement, 14 in another, 14 being right |
| ComposedQuery.DistinctTimesIff | internal/migrations/006-composed-query.sql:608-614 | the rows have distinct times if and only if every combined time after the start is a real change or lies before all of them |
| ComposedQuery.RepeatedValueExample | internal/migrations/006-composed-query.sql:253-310 | a primitive that records the same value twice makes the query return a row twice |
| ComposedMeaning.ComposedValueIsPathAverage | internal/migrations/006-composed-query.sql:101-614 | from taxonomies to result, for any lists of entering values: with W the sum of path weights in force and S the sum of last entering value times path weight, the value read is a with a * W = S, or 0 if W is 0 |
| ComposedMeaning.ComposedValueIsBetween | internal/migrations/006-composed-query.sql:101-614 | with path weights that are not negative and not all 0, the value read exists and lies between any bounds on the last values of the streams that have a weight |
| ComposedMeaning.ComposedValueOfRecordedEvents | internal/migrations/006-composed-query.sql:101-614 | from taxonomies and recorded events to result: without contested times and missed values, the value read is a with a * W = S, or 0 if W is 0, where S is taken over the last values recorded by the frozen height |
| ComposedMeaning.RecordedValueIsBetween | internal/migrations/006-composed-query.sql:101-614 | with path weights that are not negative and not all 0, it lies between any bounds on the last recorded values of the streams that have a weight |
| DomainManager.SanListBuilder.Add | deployments/infra/lib/constructs/alternativedomainmanager/manager.go:67-73 | adds the non-empty names |
| DomainManager.SanListBuilder.List | deployments/infra/lib/constructs/alternativedomainmanager/manager.go:78-101 | the sorted listing of the set |
| DomainManager.AlternativeDomainManager.RegisterTarget | deployments/infra/lib/constructs/alternativedomainmanager/manager.go:192-210 | sets the target of the id; an empty id or no target changes nothing |
| DomainManager.AlternativeDomainManager.CollectConfiguredSans | deployments/infra/lib/constructs/alternativedomainmanager/manager.go:215-227 | adds exactly the configured names that need TLS, in whatever order the map is walked |
| DomainManager.AlternativeDomainManager.LookupAlternativeZone | deployments/infra/lib/constructs/alternativedomainmanager/manager.go:576-613 | a resolved zone stays; a lookup counts only if it yields a zone with an id |
| DomainManager.AlternativeDomainManager.GetCertificateRequirements | deployments/infra/lib/constructs/alternativedomainmanager/manager.go:231-453 | answer, name set and resolved zone are functions of the inputs and the previous zone |
| DomainManager.AlternativeDomainManager.ChooseValidation | deployments/infra/lib/constructs/alternativedomainmanager/manager.go:290-453 | single-zone or multi-zone validation, with every fallback |
| DomainManager.AlternativeDomainManager.MapToZones | deployments/infra/lib/constructs/alternativedomainmanager/manager.go:373-407 | each name goes to its zone; an unnamed primary zone maps none |
| DomainManager.AlternativeDomainManager.ProvisionAlternativeDomains | deployments/infra/lib/constructs/alternativedomainmanager/manager.go:459-572 | on success every configured name has exactly the record that its registered target asks for: to its own API domain for a fronting API behind Gateway or Indexer that has a default stage, given a certificate; to the record target of any other registered target; and none if target, API, certificate or record target is missing. The counter is the number of records. It fails exactly for a missing zone name, an unresolved zone or, with a certificate, an API behind Gateway or Indexer without default stage |
| DomainManager.AlternativeDomainManager.CreateRecords | deployments/infra/lib/constructs/alternativedomainmanager/manager.go:485-564 | the loop in any map order makes these records, or fails exactly for such an API without default stage |
| DomainManager.RequirementsAreSound | deployments/infra/lib/constructs/alternativedomainmanager/manager.go:231-289 | the list is strictly sorted and holds exactly the explicit names and the configured ones that do not say they need no TLS, without empty names; the certificate is named after the first explicit name, or else the first of the list; there is an answer unless there is no name or no primary zone |
| DomainManager.MultiZoneCoversAllNames | deployments/infra/lib/constructs/alternativedomainmanager/manager.go:305-430 | the mapping covers exactly the names, with primary zone before alternative zone before default; and exactly when it is used |
| DomainManager.UnderIff | deployments/infra/lib/constructs/alternativedomainmanager/manager.go:373-407 | a name lies under a zone exactly when it is the zone's name without final dot, or that name behind some prefix and a dot |
| DomainManager.NestedZoneIsNeverUsed | deployments/infra/lib/constructs/alternativedomainmanager/manager.go:373-407 | the alternative zone's name is the primary zone's name or ends in a dot and that name if and only if no name whatever is mapped to the alternative zone |
| DomainManager.NamesAreStable | deployments/infra/lib/constructs/alternativedomainmanager/manager.go:245-289 | name and list do not depend on zones or earlier calls |
| DomainManager.ZoneIsWrittenOnce | deployments/infra/lib/constructs/alternativedomainmanager/manager.go:576-613 | over any run of calls a resolved zone never changes |
| DomainManager.CallResolves | deployments/infra/lib/constructs/alternativedomainmanager/manager.go:231-330 | while no zone is resolved, exactly the calls that look one up can resolve it, to what the lookup answers if that has an id: provisioning asks for the override or else the configured name, a certificate for that name without its final dot when it is another zone than the primary one |
| DomainManager.OneLookupSucceeds | deployments/infra/lib/constructs/alternativedomainmanager/manager.go:576-613 | at most one call of a run resolves the zone |
| DomainManager.RegisteredIff | deployments/infra/lib/constructs/alternativedomainmanager/manager.go:192-210 | an id has a target if and only if some call registered one |
| DomainManager.LastRegistrationWins | deployments/infra/lib/constructs/alternativedomainmanager/manager.go:192-210 | the target of an id is the one registered last |
| CertNames.FqdnIs | deployments/infra/config/domain/domain_config.go:36-60 | the name of a deployment: subdomain, dev prefix and main domain in this order; a prod deployment with a prefix and a dev deployment without one panic |
| CertNames.SubdomainOfFqdn | deployments/infra/config/domain/domain_config.go:36-66 | a subdomain is its label in front of the deployment's name |
| CertNames.LabelsRebuildNames | deployments/infra/lib/constructs/fronting/cert_manager.go:36-68 | no panic if and only if both names lie under the zone; then label, dot and zone rebuild both names |
| CertNames.SharedCertificateCoversNames | deployments/infra/lib/constructs/fronting/api_gateway.go:145 | for every valid deployment both attached names are rebuilt, are on the shared certificate and validate in the primary zone |
| MarkdownTable.ParseRow | tests/streams/utils/table/parse.go:60-72 | the trimmed cells, without a trailing comment cell |
| MarkdownTable.KeepSignificant | tests/streams/utils/table/parse.go:19-22 | drops blank lines and comments |
| MarkdownTable.TableFromMarkdown | tests/streams/utils/table/parse.go:17-58 | the parsed table or the first error |
| MarkdownTable.SecondLineDecides | tests/streams/utils/table/parse.go:33-46 | a printed table is refused for its second line exactly when that line does not hold dashes only |
| MarkdownTable.TooFewLinesIff | tests/streams/utils/table/parse.go:17-26 | a text is refused as too short exactly when fewer than two significant lines are left |
| MarkdownTable.RowOfLine | tests/streams/query/query_test.go:1019-1030 | a printed row is read back, except that a last cell starting with # is lost |
| MarkdownTable.ParsedIsOfSignificantLines | tests/streams/utils/table/parse.go:17-22 | for any lines: after the outer blank lines are dropped and the text's two ends are trimmed, the result depends on the significant lines only |
| MarkdownTable.PaddedTableParses | tests/streams/utils/table/parse.go:17-58 | the outcome for any text of a table with white space left and right of any line, blank lines and comments: white space that the trim of the whole text leaves before or behind the header line adds an empty header there; around dashes and rows it changes nothing |
| MarkdownTable.ParsingUndoesPrinting | tests/streams/utils/table/parse.go:17-72 | a printed table is read back if and only if no row ends in a cell starting with #; otherwise it is refused |
| MarkdownTable.CommentsChangeNothing | tests/streams/utils/table/parse.go:17-22 | blank lines and comments anywhere, also before and after the table, change nothing |
| MarkdownTable.HeaderIsNotTrimmed | tests/streams/utils/table/parse.go:17-58 | such a table is read back if and only if the header line, after the trim of the whole text, has no white space on either side and no row ends in a cell starting with #; with such white space every table with rows is refused |
| MarkdownTable.IndentedHeaderExample | tests/streams/utils/table/parse.go:27-31 | a tab before the header line makes a first, empty header |
| ComposedSetup.ParseComposedSetup | tests/streams/utils/setup/composed.go:108-200 | streams, data and weights, or the first error; on success every header that is not event_time has its own stream, and stream and weight k belong together, with weight 1 when none are given |
| ComposedSetup.ItemsAre | tests/streams/utils/setup/composed.go:175-198 | the taxonomy exists exactly when every stream has a weight that can be read; item k holds stream k and weight k; a list that is too short panics |
| ComposedSetup.PivotRow | tests/streams/utils/setup/composed.go:147-165 | one row: cell i goes to stream i |
| ComposedSetup.PivotKeepsColumns | tests/streams/utils/setup/composed.go:146-166 | stream j receives exactly the non-empty cells of column j + 1, in row order with their times |
| ComposedSetup.PivotKeepsCount | tests/streams/utils/setup/composed.go:146-166 | there are as many records as non-empty cells |
| ComposedSetup.PivotNeedsReadableRows | tests/streams/utils/setup/composed.go:146-166 | success means that every time and every non-empty cell could be read |
| ComposedSetup.PivotOfTable | tests/streams/utils/setup/composed.go:129-166 | with one event_time column at the front there is a stream for every further header, it receives exactly its column, and the counts agree |
| ComposedSetup.AlignedIff | tests/streams/utils/setup/composed.go:129-166 | for headers that begin with event_time: every readable table under them has each column delivered to its own stream if and only if no later header is event_time |
| ComposedSetup.PivotOutcome | tests/streams/utils/setup/composed.go:129-166 | for headers that begin with event_time and contain any number of further ones: the pivot panics if and only if some row has a non-empty cell beyond the streams, and otherwise stream j receives exactly column j + 1 |
| BuildEnv.FilterEnv | deployments/infra/lib/goasset/internal/buildcmd/buildcmd.go:116-139 | the keys in first-occurrence order with their last values |
| BuildEnv.FilteringKeepsSettings | deployments/infra/lib/goasset/internal/buildcmd/buildcmd.go:116-139 | filtering keeps keys, order and values |
| BuildEnv.FilteringIsIdempotent | deployments/infra/lib/goasset/internal/buildcmd/buildcmd.go:116-139 | filtering twice is filtering once; keys are unique and not empty |
| BuildEnv.FilteringParts | deployments/infra/lib/goasset/internal/buildcmd/buildcmd.go:116-139 | filtering two parts before joining them gives the same result |
| BuildEnv.FilteringKeepsEverySetting | deployments/infra/lib/goasset/internal/buildcmd/buildcmd.go:116-139 | no variable's setting changes |
| BuildEnv.Build | deployments/infra/lib/goasset/internal/buildcmd/buildcmd.go:37-111 | arguments, environment and directory, or an error for a platform without a slash |
| BuildEnv.TargetIs | deployments/infra/lib/goasset/internal/buildcmd/buildcmd.go:38-51 | the target platform is the option cut at its first slash, or the host's; an option without a slash is refused |
| BuildEnv.ArgumentsAre | deployments/infra/lib/goasset/internal/buildcmd/buildcmd.go:53-80 | kind of build, -trimpath, the default about version control exactly when the caller says nothing about it and it is no test, the caller's flags, the output path and the target, in this order |
| BuildEnv.BuildSees | deployments/infra/lib/goasset/internal/buildcmd/buildcmd.go:83-97 | every variable has the caller's last extra setting, or else the build's own, or else the host's; so GOOS and GOARCH name the target unless the caller says otherwise |
| Ordering.SortedKeys | deployments/infra/lib/constructs/alternativedomainmanager/manager.go:83-90 | collecting a set in any order and sorting it gives its sorted listing |
| Ordering.ListingUnique | deployments/infra/lib/constructs/alternativedomainmanager/manager.go:78-97 | there is one sorted listing: the result does not depend on map iteration order |
| Ordering.StringLessIff | internal/benchmark/benchexport/markdown.go:84-92 | the order of strings: a proper prefix first, otherwise the first character that differs |

## Left out

- Trees.CalculateTreeDepth: the floating-point formula is replaced by the exact ceiling logarithm it stands for, for a branching factor of at least 2; below that the formula divides by zero or takes the logarithm of a number below 1 and nothing is said.
- Trees.NewTree: an empty tree makes the program panic at its first assignment and is excluded; the stored depth is left open for a branching factor below 2.
- Trees.ToDisplay: stated for a branching factor of at least 1; below that a tree from `NewTree` has a root without children and the remaining nodes are zero values.
- MemCollector: liveness when the stats stream ends before the first sample, and when the decoder ignores a cancel; the value of a sample is usage minus cache modulo 2^64.
- Report.SaveAsMarkdown: column padding, headings, dates and file handling; a table is its header and its rows of strings.
- Csv.LoadAfterSaves: quoting and line ends belong to the CSV text form (section 2 of RFC 4180); at that level a one-column record whose only cell is empty is a blank line, which a reader skips, and a carriage return before a newline inside a cell is not kept. Floating-point kinds are not modelled.
- Csv.CsvFile.SaveOrAppend: a type without usable tags appended to a non-empty file adds records without cells; such a file is not loaded in the proofs.
- Csv.HeaderOnce: a loaded type whose usable tags repeat a name is excluded; its earlier field would take the later one's column.
- PrimitiveInsertion.PrimitiveEvents.InsertRecords: an empty batch is excluded, since the index query still yields one row that has no arguments.
- PrimitiveInsertion.BatchIsSingles: proved for helpers that answer row by row; the general statement is AgreeIff, and what holds of the helpers as written is AsWrittenAgreesIff.
- PrimitiveInsertion.AsWrittenAgreesIff: the single checks (001-common-actions.sql, 002-authorization.sql) are arbitrary predicates, the flags that the wallet helper collects from its own two helpers are arbitrary lists, and whether a SELECT without RETURN hands its rows to the caller is the parameter `selected`. The insertion's foreign key is covered by the existence check.
- PrimitiveInsertion.WalletBatch: the last loop of the helper names only array_length where a range is meant; it is read as running over all positions. Whichever positions it visits, its rows hold true.
- PrimitiveInsertion.Lower: lower-casing is modelled for ASCII letters only.
- ComposedQuery.QueryIsWeightedAverage: rounding to NUMERIC(36,18) and NUMERIC(72,18) is not modelled; times from the query's own infinity value 9223372036854775000 on are excluded; permission checks and the defaults for missing bounds come before the modelled part.
- ComposedSeries.ReadingTheOutput: the query's extra time points (cleaned_event_times) are an arbitrary set; the result holds for every such set, so their selection is not modelled.
- Taxonomy.HierarchyIsPaths: stated level by level; on cyclic definitions whose intervals overlap the recursion has no last level.
- ComposedPoints.CarriedForwardIff: a primitive that the hierarchy does not reach has no spans and enters no query.
- The derived queries of 007-composed-query-derivate.sql and 008-public-query.sql, and the writing of taxonomies in 004-composed-taxonomy.sql.
- DomainManager.AlternativeDomainManager.GetCertificateRequirements: log texts, which dereference zone names, and the branches that cannot be reached because the name set is never empty there.
- DomainManager.AlternativeDomainManager.ProvisionAlternativeDomains: CDK constructs, their ids and the API Gateway domain and mapping objects; only the A records are kept. Route 53 and ACM are functions or absent.
- CertNames.SharedCertificateCoversNames: the wiring of the stacks and the issuing of the certificate.
- MarkdownTable.Fields: the pattern that splits cells also eats white space around bars; trimming removes the same white space, so the model splits at the bars.
- ComposedSetup.ParseComposedSetup: float parsing and stream id generation are functions passed in.
- BuildEnv.Build: path functions and the process environment are inputs.
- Startup scripts, EC2 and Step Functions stacks, template rendering: library effects without logic of their own.
- `chunk`, `getRangeParameters`, averages and default configuration values: they would add easy members only.
