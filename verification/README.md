# A Dafny model of universal-test

universal-test assesses a project: it reads its OpenAPI documents, generates requests, drives a
browser, measures performance, compares the results with a saved baseline and decides whether a
build may pass. This project models the five parts of it that carry algorithms and protocols, and
proves what they promise:

1. **References and data.** `RefInlining` inlines the internal `$ref`s of a document.
   `InliningWithWarnings` says what the result is when something could not be inlined.
   `RequestData` generates values from the inlined schemas and `MinimalSchema` checks values
   against them; `Confidence` says when and what is generated, `CheckerErrors` what is reported,
   `GeneratorSoundness` and `AllOfSoundness` relate the two recursions, and `MarkerSafety` says
   what becomes of the markers inlining leaves. `PathParams` and `JsonPath` are
   the two string algorithms of the REST adapter and the assertions. Schemas and documents are
   the parsed values of `Values`; `Text` has the Python string operations.
2. **The GUI's runs.** `EventStream` interleaves a worker thread with the reader of its event
   queue; `RunRegistry` interleaves start requests, workers and their final prune under the
   registry lock and the run locks. Every step is one locked block, one queue operation, or one
   step inside the registry's critical section, where `done` flags may flip underneath.
3. **Browser scenarios.** `BrowserExecutor` and `ScenarioRunner` carry a clock. A Playwright call
   with a timeout takes any time up to it and ends in any way; everything else takes no time.
4. **Performance.** `LoadPlanner`, `LoadRunner` (with the thread pools as `LevelProtocol` and
   `DurationProtocol`), `PerformanceMetrics`, `Percentiles`, `AssessmentRules`.
5. **Regression and quality gate.** `FunctionalCompare`, `PerformanceCompare`, `Baseline`,
   `BaselineFiles`, `RegressionEngine`, `QualityGate`.

Code that works by loops or by changing fields is a method or a class, proved against a
specification function; the theorems are about those functions, or about all runs of a step
relation. `Counting` and `Sorting` hold what several modules share. `None` stands for a raised
exception where a function returns an `Option`.

## Where the code differs from what one would expect

- A reference placed under a `$ref` key, as in `{"$ref": {"$ref": "#/x"}}`, whose target is a
  string is inlined into a string-valued `$ref` without a warning, and a second run then fails on
  it or replaces it. `NestedRefSurvives` is a concrete document; `RefFreeIff` and
  `InliningIsIdempotent` say exactly when it happens. A reference to a null value counts as
  unresolvable, and the depth limit of 40 also counts plain nesting (`DepthLimit`).
- The generator is confident about schemas on which the checker raises or which it rejects:
  "properties" that are null, and an `allOf` next to a list type or next to type "null".
  `ConfidentPassesCheck` gives the exact shape condition for the checker, `ConfidentIsAccepted`
  also the one for a checker that would look into arrays.
- Markers do become data: an example, default or enum head that could not be resolved is copied
  with confidence (`DocumentedMarkerIsConfident`), and `allOf` branches that could not be resolved
  are dropped (`UnresolvedBranchIsConfident`). Where the generator has to
  make data for a marker itself, the answer is not confident (`NeededMarkerBlocks`);
  `MarkersComeFromSources` is the exact condition.
- An `allOf` next to one of the six handled types, next to a documented value or next to untyped
  "properties" is ignored, so a confident value need not pass its branches (`IgnoredBranch`).
- An integer with a fractional positive minimum is generated below it (`IntegerMeetsMinimum`), and
  the text generated for the format "uuid" is four digits too short for a UUID
  (`DefaultsHaveFormats`).
- A path parameter whose value names another can make the result depend on the parameters' order
  (`BracesInValues`). The intended result comes out for every template exactly when each value
  comes unchanged through the replacements after it (`SequentialExactly`, `OrdersAgreeExactly`).
- A reader that opens the event stream after completion never sees the error event, which is
  queued but not stored; an early reader sees the events of its snapshot twice, since they are
  also still queued (`StreamDelivers`, `ErrorEventReachesEarlyReaders`).
- The comment at `src/universal_test/adapters/browser/executor.py:339-342` says that a child step
  never exceeds what is left of the scenario; with less than 0.05 s left it does
  (`BudgetOverrun`). The screenshot floor adds up to one second. Opening the browser is not
  bounded at all, so the time limit of `RunScenario` leaves the clock untouched when it was late
  already.
- Naming "unreachable" in `warn_on` turns the exit code of an unreachable target from 3 into 0
  (`WarningLiftsError`).

## Model

| member | source | states |
|---|---|---|
| `RefInlining.ResolveRefLoop` | src/universal_test/adapters/rest/openapi_loader.py:45-55 | the loop over the pointer parts finds what walking the root through the unescaped keys finds, and nothing for a reference that is not internal or meets a missing key |
| `RefInlining.UnescapeEscape` | src/universal_test/adapters/rest/openapi_loader.py:50 | replacing "~1" before "~0" undoes the escaping of section 3 of RFC 6901 for every key |
| `RefInlining.PointerRoundTrip` | src/universal_test/adapters/rest/openapi_loader.py:45-55 | the pointer printed for any non-empty list of keys resolves to what those keys lead to |
| `RefInlining.Inliner.WalkNode` | src/universal_test/adapters/rest/openapi_loader.py:68-86 | the recursive closure returns the inlined node and appends exactly its warnings to the shared list, and terminates with the remaining depth as measure |
| `RefInlining.Inliner.WalkEach` | src/universal_test/adapters/rest/openapi_loader.py:83-86 | the comprehensions over dict values and list items do the same item by item, in order |
| `RefInlining.ResolveInternalRefs` | src/universal_test/adapters/rest/openapi_loader.py:58-90 | the whole call: result and warnings, or the final assertion failing when the document inlines to something other than a dict |
| `RefInlining.InliningPreservesMeaning` | src/universal_test/adapters/rest/openapi_loader.py:58-90 | without a warning, every key/index path shows in the result exactly what it shows in the document when each reference met is followed through `_resolve_ref` |
| `InliningWithWarnings.InliningShowsOrMarks` | src/universal_test/adapters/rest/openapi_loader.py:58-90 | with or without warnings, for every document and path: the result shows what the document shows through its references, unless the path leads through a marker |
| `InliningWithWarnings.MarkersStandExactly` | src/universal_test/adapters/rest/openapi_loader.py:68-81 | where the markers of a document that has none itself are, and which: at a path stands a marker if and only if along it, through different references, one gets to a reference followed before or leading nowhere, which the marker names, or to the 41st level |
| `InliningWithWarnings.ReferenceLeadsTo` | src/universal_test/adapters/rest/openapi_loader.py:45-55 | a printed pointer leads to what is at the end of its keys and nowhere when one is missing; a reference that is not internal leads nowhere |
| `RefInlining.InliningIsIdempotent` | src/universal_test/adapters/rest/openapi_loader.py:58-90 | after a run without warnings a second run returns the result unchanged and without warnings if and only if the first met no reference, placed under a "$ref" key, that leads to a string |
| `RefInlining.FixedPointIsRefFree` | src/universal_test/adapters/rest/openapi_loader.py:58-90 | a document that inlining returns unchanged and without a warning contains no string reference at all |
| `RefInlining.RefFreeIff` | src/universal_test/adapters/rest/openapi_loader.py:68-86 | the result has no string under "$ref" if and only if the walk met no such nested reference, for every document, with or without warnings |
| `RefInlining.ResultIsRefFree` | src/universal_test/adapters/rest/openapi_loader.py:68-86 | in particular never when no reference sits directly under a "$ref" key |
| `RefInlining.RefFreeExactly` | src/universal_test/adapters/rest/openapi_loader.py:68-86 | for a clean run the same in terms of lookups in the input: no path ending in "$ref" leads, through references, to a string |
| `RefInlining.NestedRefSurvives` | src/universal_test/adapters/rest/openapi_loader.py:74-83 | a concrete document whose clean result still holds a string "$ref" and whose second run warns |
| `RefInlining.CycleWarningsAreSound` | src/universal_test/adapters/rest/openapi_loader.py:75-82 | the trail of a circular warning is a duplicate-free path of the reference graph from the document that closes on itself; an unresolvable reference is reachable and has no target; a depth warning means that the expansion goes down more than 40 levels |
| `RefInlining.NoWarningMeansNoCycle` | src/universal_test/adapters/rest/openapi_loader.py:68-83 | without warnings no path of the reference graph repeats a reference, is longer than 40 or ends nowhere: a reachable cycle always warns |
| `RefInlining.CleanExactly` | src/universal_test/adapters/rest/openapi_loader.py:68-86 | a document is inlined without a warning exactly when its full expansion is finite, meets no reference without a target and is at most 40 levels deep, following a reference being one |
| `RefInlining.MarkersMatchWarnings` | src/universal_test/adapters/rest/openapi_loader.py:69-81 | one marker per warning, in the same order and naming the same reference, when the document uses no marker key |
| `RefInlining.ResultFits` | src/universal_test/adapters/rest/openapi_loader.py:68-86 | the result nests at most 41 levels before a marker |
| `RefInlining.CleanResultFits` | src/universal_test/adapters/rest/openapi_loader.py:68-86 | and at most 40 when nothing was cut |
| `RefInlining.DepthLimit` | src/universal_test/adapters/rest/openapi_loader.py:68-71 | a document without references is walked without a warning exactly when it nests at most 40 levels deep |
| `MinimalSchema.Checker.CheckMinimalSchema` | src/universal_test/core/assertions/builtin.py:101-116 | the recursion that appends to the errors list computes the check, and raises exactly where the dict and attribute accesses do |
| `MinimalSchema.CheckExactly` | src/universal_test/core/assertions/builtin.py:101-116 | the checker adds no error and does not raise exactly for the data that conforms to type, required and properties at every level, whatever was collected before |
| `CheckerErrors.ErrorsAre` | src/universal_test/core/assertions/builtin.py:101-116 | unless it raises, the checker adds exactly the errors that are due, a wrong type or a missing required field, each with the path of the value |
| `CheckerErrors.InstancesAre` | src/universal_test/core/assertions/builtin.py:103-108 | which of the seven type names a value satisfies: an integer is also a number, and a bool is all three; any other name is satisfied by everything |
| `RequestData.GenerateObjectLoop` | src/universal_test/adapters/rest/request_data.py:89-103 | the loop over the required names computes the object that the soundness rows are about, with the same early answers and exceptions |
| `RequestData.GenerateAllOfLoop` | src/universal_test/adapters/rest/request_data.py:106-114 | the loop merges the branches up to the first that is no dict, and the object is made from the merged schema |
| `GeneratorSoundness.ConfidentIsAccepted` | src/universal_test/adapters/rest/request_data.py:30-103 | given examples, defaults and enum heads that conform, a confident value is accepted by its schema, with or without items and minItems, if and only if the schema is well-shaped where data is synthesised and checked |
| `GeneratorSoundness.ConfidentPassesCheck` | src/universal_test/adapters/rest/request_data.py:30-103 | for `_check_minimal_schema` itself: a confident value adds no error and does not make it raise if and only if the schema is well-shaped outside array items |
| `GeneratorSoundness.UncheckedItems` | src/universal_test/core/assertions/builtin.py:111-116 | the two conditions differ: an item schema that the checker could not read passes unread |
| `GeneratorSoundness.NullProperties` | src/universal_test/adapters/rest/request_data.py:89-103 | a schema that is not well-shaped: confident, yet the checker raises on null properties |
| `GeneratorSoundness.AllOfWithAnotherType` | src/universal_test/adapters/rest/request_data.py:66-70 | the other ways: an allOf next to a list type (raises) or type "null" (rejected) |
| `AllOfSoundness.AllOfPassesEveryBranch` | src/universal_test/adapters/rest/request_data.py:106-114 | an allOf of branches that agree on shared properties yields a dict with every required field, accepted by a typed branch exactly when its keywords are proper |
| `AllOfSoundness.MergeCollects` | src/universal_test/adapters/rest/request_data.py:106-114 | the merged schema has every required name of every branch and exactly the properties of the branches |
| `AllOfSoundness.SchemaPassesEveryBranch` | src/universal_test/adapters/rest/request_data.py:30-73 | the same for what `generate_value` returns for a schema with an allOf that it consults |
| `AllOfSoundness.IgnoredBranches` | src/universal_test/adapters/rest/request_data.py:39-70 | it consults the branches only without a documented value, next to a type it does not handle, and not next to untyped properties: in all other cases any other branches give the same answer |
| `AllOfSoundness.ConsultedExactly` | src/universal_test/adapters/rest/request_data.py:39-70 | that guard is exact: given a confident answer, the branches are consulted if and only if a confident value passes every branch of whatever agreeing object schemas with proper keywords the `allOf` holds |
| `AllOfSoundness.IgnoredBranch` | src/universal_test/adapters/rest/request_data.py:66-70 | a schema of type object whose confident value its only allOf branch rejects |
| `GeneratorSoundness.UnsureHasNoValue` | src/universal_test/adapters/rest/request_data.py:30-73 | an answer that is not confident carries no value |
| `Confidence.ConfidentExactly` | src/universal_test/adapters/rest/request_data.py:31-73 | the answer is confident if and only if the schema qualifies: a documented value, a scalar type with readable keywords, an array that wants nothing or whose items qualify, an object or consulted branches whose required names all have a qualifying property, at most ten levels down |
| `Confidence.ConfidentValue` | src/universal_test/adapters/rest/request_data.py:31-115 | a confident value is the one the schema prescribes: example before default before enum; otherwise data of its type with as many items as wanted and exactly the required fields, each prescribed by its own property, of which the last branch decides |
| `Confidence.DefaultsHaveFormats` | src/universal_test/adapters/rest/request_data.py:17-28 | the default text of each known format has that format, but for "uuid", whose last group has eight digits instead of twelve |
| `GeneratorSoundness.NumberMeetsMinimum` | src/universal_test/adapters/rest/request_data.py:56-58 | a numeric minimum of a number is always met, and by the smallest number that meets it |
| `GeneratorSoundness.IntegerMeetsMinimum` | src/universal_test/adapters/rest/request_data.py:54-56 | the generated integer meets a numeric minimum exactly unless that is a positive fraction; if it does it is the smallest integer that does, and otherwise it is less than one below |
| `MarkerSafety.MarkerIsUnsure` | src/universal_test/adapters/rest/request_data.py:30-73 | a marker taken as a schema yields no value |
| `MarkerSafety.NeededMarkerBlocks` | src/universal_test/adapters/rest/request_data.py:30-114 | nor does any schema that needs data for a marker, down to any depth: for wanted items, a required property or a required property of merged allOf branches |
| `MarkerSafety.MarkersComeFromSources` | src/universal_test/adapters/rest/request_data.py:30-114 | a confident value is free of markers if and only if the examples, defaults and enum heads copied in the positions that are synthesised are, and no required name is spelled like one |
| `MarkerSafety.MarkerBranchesAreDropped` | src/universal_test/adapters/rest/request_data.py:109-114 | an allOf gives the same answer with the branches that could not be resolved as without them |
| `MarkerSafety.CleanDocumentCleanData` | src/universal_test/adapters/rest/openapi_loader.py:58-90 | from a document inlined without a warning no confident value, of whatever schema in it, holds a marker |
| `MarkerSafety.DocumentedMarkerIsConfident` | src/universal_test/adapters/rest/request_data.py:39-44 | an example that could not be resolved becomes a confident value, which conforms to its schema and passes the checker |
| `MarkerSafety.UnresolvedBranchIsConfident` | src/universal_test/adapters/rest/request_data.py:69-70 | an allOf whose only branch could not be resolved gives an empty object, with confidence |
| `PathParams.SubstitutePathParams` | src/universal_test/adapters/rest/url_utils.py:9-12 | the loop over the dict computes the one-after-the-other replacement that the next three rows characterise |
| `PathParams.SequentialIsSimultaneous` | src/universal_test/adapters/rest/url_utils.py:9-12 | with brace-free names, and one of the two braces in no literal text and no value, it is simultaneous substitution: supplied placeholders are replaced, all else stays |
| `PathParams.OrderDoesNotMatter` | src/universal_test/adapters/rest/url_utils.py:9-12 | so the order of the parameters does not matter then |
| `PathParams.SequentialExactly` | src/universal_test/adapters/rest/url_utils.py:9-12 | values may hold placeholders, and braces of one kind beside them: every template gets each value put in once and left alone if and only if each value comes unchanged through the replacements after it |
| `PathParams.SettledIsNecessary` | src/universal_test/adapters/rest/url_utils.py:9-12 | for any values at all that condition is necessary |
| `PathParams.NamesNoneLaterSettles` | src/universal_test/adapters/rest/url_utils.py:9-12 | it is met when no value names a later parameter, a sufficient condition |
| `PathParams.NamedYetSettled` | src/universal_test/adapters/rest/url_utils.py:9-12 | a concrete pair that meets it although a value names a later parameter |
| `PathParams.OrdersAgreeExactly` | src/universal_test/adapters/rest/url_utils.py:9-12 | from an order that meets it, another order of the same parameters gives the same results for every template if and only if it meets it too |
| `PathParams.BracesInValues` | src/universal_test/adapters/rest/url_utils.py:9-12 | a concrete pair of parameters whose order changes the result |
| `JsonPath.ResolvePath` | src/universal_test/core/assertions/path.py:18-39 | the tokenizer loop walks the data by the tokens of the cleaned path, down to the not-found sentinel |
| `JsonPath.ResolvePrinted` | src/universal_test/core/assertions/path.py:18-39 | resolving the printed form of any printable list of keys and indices is walking the data by that list |
| `JsonPath.ResolveUndollared` | src/universal_test/core/assertions/path.py:18-39 | the same without the "$" |
| `JsonPath.ResolveBare` | src/universal_test/core/assertions/path.py:18-39 | and for the form "a.b[0]", without the first dot |
| `JsonPath.SpacesAreStripped` | src/universal_test/core/assertions/path.py:18-39 | whitespace around a path makes no difference |
| `JsonPath.PrintedMeansTheSame` | src/universal_test/core/assertions/path.py:18-39 | conversely a path means the same as the printed form of its own tokens |
| `Percentiles.PercentileIsNearestRank` | src/universal_test/testing/performance/percentiles.py:21-30 | the percentile of the sorted samples is the one sample with less than p percent of the samples below it and at least p percent up to it; the smallest for p up to 0, the largest for p above 100 |
| `Percentiles.StatsIgnoreOrder` | src/universal_test/testing/performance/percentiles.py:33-49 | the statistics do not depend on the order of the samples |
| `Percentiles.StatsAreOrdered` | src/universal_test/testing/performance/percentiles.py:33-49 | min <= p50 <= p90 <= p95 <= p99 <= max, and min and max enclose the mean and every sample |
| `Percentiles.StatsAreSamples` | src/universal_test/testing/performance/percentiles.py:41-49 | min and max are samples and the percentiles are nearest-rank samples |
| `Percentiles.MeanIsExact` | src/universal_test/testing/performance/percentiles.py:41-49 | the mean times the number of samples is their sum |
| `AssessmentRules.OverallIsWorst` | src/universal_test/assessment/rules.py:37-48 | the overall status is the worst assessed one; categories that were not assessed never change it, and alone they give UNKNOWN |
| `PerformanceMetrics.Conservation` | src/universal_test/testing/performance/metrics.py:15-47 | total = successful + timeouts + network + HTTP errors exactly when every error-free sample succeeded |
| `PerformanceMetrics.ExecutorConserves` | src/universal_test/adapters/rest/performance_executor.py:47-74 | samples of the executor always meet that |
| `PerformanceMetrics.BucketsFollowExchanges` | src/universal_test/adapters/rest/performance_executor.py:47-74 | every HTTP exchange ends up in the bucket of its outcome |
| `PerformanceMetrics.RatesAreBounded` | src/universal_test/testing/performance/models.py:104-108 | the error rate lies in [0, 100], 0 and 100 exactly for all and no successes, and successful RPS <= RPS |
| `PerformanceMetrics.RatesAreExact` | src/universal_test/testing/performance/metrics.py:15-47 | times the seconds the rates give the requests and the successful requests, and the error rate is the percentage of all the others; nothing is measured in no time |
| `PerformanceMetrics.LatencyIsOfSamples` | src/universal_test/testing/performance/metrics.py:15-47 | the latency figures describe the durations of all samples: extremes, mean and nearest-rank percentiles; without samples there are none |
| `PerformanceMetrics.EvaluateThresholds` | src/universal_test/testing/performance/thresholds.py:17-49 | one result per recognised limit, in order, not assessed when there is nothing to compare, and a warning for each other name |
| `PerformanceMetrics.ThresholdsMean` | src/universal_test/testing/performance/thresholds.py:17-49 | a result belongs to a configured limit, fails exactly when the measured value breaks it, and is not assessed exactly without anything to compare |
| `PerformanceMetrics.IgnoredAre` | src/universal_test/testing/performance/thresholds.py:17-49 | warned about are exactly the configured names that are not one of the six |
| `PerformanceMetrics.BreachesAreViolations` | src/universal_test/testing/performance/thresholds.py:17-49 | from limits to findings: a breach is reported exactly for the levels where a percentile lies above its limit, failed requests above their share, or fewer requests per second than the limit were made |
| `PerformanceMetrics.AssessPerformance` | src/universal_test/assessment/performance_assessment.py:14-54 | one finding per breached threshold, in order over all levels; a breach moves the status from PASS to WARNING and changes no other |
| `PerformanceMetrics.FailMeansUnreachable` | src/universal_test/assessment/rules.py:51-79 | the category is FAIL exactly when at least one request was made and all of them, over all levels, failed in transport, whatever the thresholds say |
| `PerformanceMetrics.PassMeansClean` | src/universal_test/assessment/rules.py:51-79 | PASS exactly when requests were made, all went well and no threshold was breached; UNKNOWN exactly without requests |
| `LoadPlanner.ValidateConcurrencyLevels` | src/universal_test/testing/performance/planner.py:26-35 | accepts exactly 1 to 10 levels of 1 to 200 each |
| `LoadPlanner.ResolveRequestsAndDuration` | src/universal_test/testing/performance/planner.py:38-61 | requests win over a duration, with a warning; both are checked against their ceilings; 50 requests when neither is given |
| `LoadPlanner.BuildLoadProfile` | src/universal_test/testing/performance/planner.py:64-127 | the branches build what the plan functions say: accepted or refused, with levels, limits and warnings |
| `LoadPlanner.BuiltAsPlanned` | src/universal_test/testing/performance/planner.py:26-127 | what is built is what was asked for: accepted exactly for a known kind, limits within 2000 requests or 300 seconds and one to ten levels of 1 to 200 workers (different ones for stress); with the given levels, or 1 and 10, or the default stress steps up to the cap, and one warning per override |
| `LoadPlanner.StressLevelsClimb` | src/universal_test/testing/performance/planner.py:88-98 | stress levels ascend strictly: the given ones, or steps up to the cap |
| `LoadPlanner.PlannedTotalIsBounded` | src/universal_test/testing/performance/models.py:171-174 | an accepted count-mode profile asks for 1 to 20000 requests in all |
| `LevelProtocol.InFlightIsBounded` | src/universal_test/testing/performance/runner.py:117-128 | in every state of every interleaving at most `concurrency` calls are in flight and at most `count` were made |
| `LevelProtocol.LevelYieldsItsCount` | src/universal_test/testing/performance/runner.py:117-128 | a level that is over has one sample per call made and, without cancellation, exactly the requested number, in the order of submission |
| `LevelProtocol.LevelMakesProgress` | src/universal_test/testing/performance/runner.py:117-128 | until all tasks are settled some step brings the level closer to its end |
| `LevelProtocol.CancelStopsCalls` | src/universal_test/testing/performance/runner.py:117-128 | once the event is set no further task passes its check of it, so no call is made but by those that had |
| `DurationProtocol.DurationLevel` | src/universal_test/testing/performance/runner.py:130-148 | in duration mode too calls in flight are bounded, and every ended call left one sample |
| `DurationProtocol.CallsAfterDeadline` | src/universal_test/testing/performance/runner.py:130-138 | after the deadline each loop makes at most one more call |
| `DurationProtocol.CancelStopsCalls` | src/universal_test/testing/performance/runner.py:130-148 | the same for the loops of a timed level |
| `LoadRunner.Run` | src/universal_test/testing/performance/runner.py:44-79 | the levels run are a prefix of the plan, each with its evaluated thresholds; a proper prefix means stopped early with the right reason, and every stress level but the last met both limits |
| `LoadRunner.TotalCallsAreBounded` | src/universal_test/testing/performance/runner.py:96-128 | whatever is asked of the planner: if it accepts in count mode, every result of `run` for that plan, with levels measured by their pools, stands for at most the estimated number of calls, and at most 20000 |
| `EventStream.StreamDelivers` | src/universal_test/gui/server.py:397-414 | in every interleaving of worker and reader a closed stream is all of `events`, or a prefix of them and then the complete queued sequence; it ends with its only done and misses no progress event |
| `EventStream.SnapshotIsTaken` | src/universal_test/gui/server.py:397-400 | the events and the done flag the reader goes by are those of the run at the moment it opened the stream |
| `EventStream.ErrorEventReachesEarlyReaders` | src/universal_test/gui/runs.py:88-109 | the error event, which is only queued, reaches a reader exactly when it opened the stream before the run was done |
| `EventStream.ReaderFinishes` | src/universal_test/gui/server.py:397-414 | once the worker is through, the reader reaches the end of the stream by its own steps |
| `EventStream.WorkerNeverBlocks` | src/universal_test/gui/runs.py:81-109 | until it has exited the worker always has a step of its own |
| `EventStream.StreamEvents` | src/universal_test/gui/server.py:397-414 | the reader loop writes the snapshot, then done or everything up to the first None |
| `EventStream.LoopMatchesProtocol` | src/universal_test/gui/server.py:406-414 | fed the complete queued sequence, the loop stops at its very end |
| `RunRegistry.RegistryIsSuffixOfHistory` | src/universal_test/gui/runs.py:69-131 | in every reachable state the stored runs are a suffix of the start history; with the lock free at most the newest is not done and there are between min(started, M) and M+1; nothing unfinished was evicted |
| `RunRegistry.ResultIsTruthful` | src/universal_test/gui/server.py:421-434 | in every reachable state a started run is reported as running exactly while it is not done, as not found exactly when it is done and evicted, and otherwise as failed exactly with an error and as complete exactly with an outcome or after a BaseException |
| `RunRegistry.Registry.HasActiveRunLocked` | src/universal_test/gui/runs.py:69-70 | true exactly when a stored run is not done |
| `RunRegistry.Registry.Start` | src/universal_test/gui/runs.py:72-79 | refused exactly while some run ever started is active; otherwise the run is stored last, the oldest completed ones beyond the maximum are gone and the suffix invariant is kept |
| `RunRegistry.Registry.Finish` | src/universal_test/gui/runs.py:104-109 | flags the run done and prunes: at most M runs are left, and the invariant is kept |
| `RunRegistry.Registry.PruneCompletedLocked` | src/universal_test/gui/runs.py:118-131 | removes the oldest completed runs beyond the maximum |
| `RunRegistry.Registry.Get` | src/universal_test/gui/runs.py:114-116 | exactly the newest |stored| of all runs ever started are found, and every run that is not done is among them |
| `RunRegistry.EvictedIsSuffix` | src/universal_test/gui/runs.py:118-131 | what pruning removes is a prefix, as long as all stored runs but the newest are done, and never the newest while it is active |
| `BrowserExecutor.Session.RemainingMs` | src/universal_test/adapters/browser/executor.py:68-83 | raises exactly when the budget is spent; otherwise the timeout is positive, within its cap, and never reaches past the deadline |
| `BrowserExecutor.Session.RunSteps` | src/universal_test/adapters/browser/executor.py:173-235 | stops at the first step that raises, for a reason its error names, after running the earlier ones in order; a step goes through exactly with one call that went well, after one matching element if it acts on one; never past the deadline |
| `BrowserExecutor.Session.ResolveElementState` | src/universal_test/adapters/browser/executor.py:117-153 | Playwright errors become empty entries; only a spent budget or an unknown selector type raises, by the deadline |
| `BrowserExecutor.Session.BuildContext` | src/universal_test/adapters/browser/executor.py:238-269 | succeeds only when every selector of the assertions could be located, by the deadline |
| `BrowserExecutor.Session.Execute` | src/universal_test/adapters/browser/executor.py:332-373 | ends by the deadline, plus one second with screenshots; a context means that every step went through and every selector can be located; an error means that a step was stopped by what the error says, or that the budget was spent or a selector type unknown |
| `ScenarioRunner.RunTestCase` | src/universal_test/core/engine/test_engine.py:25-59 | the result is ERROR exactly when the executor raised, UNKNOWN exactly without assertions, and PASSED exactly when every assertion held |
| `ScenarioRunner.BudgetOverrun` | src/universal_test/adapters/browser/scenario_runner.py:227-232 | a step gets more than the scenario has left exactly when less than 0.05 s are left, and then by less than 0.05 s |
| `ScenarioRunner.ScenarioTimeoutIs` | src/universal_test/adapters/browser/scenario_runner.py:188-189 | a scenario gets what it asks for within 1 and 1800 seconds, and 120 without asking |
| `ScenarioRunner.RunSteps` | src/universal_test/adapters/browser/scenario_runner.py:212-251 | for any scenario: each step that reached the test engine failed, erred or passed as the engine answered, and nothing runs after a stop; a step gets no more than its own timeout and what is left, but 0.05 s, and keeps it; a stop without an answer came too late; the clock stays below the limit |
| `ScenarioRunner.RunScenario` | src/universal_test/adapters/browser/scenario_runner.py:172-271 | not assessed exactly when a variable is missing or no browser opens; passes exactly when every step reached the engine and none was answered FAILED or ERROR, fails exactly when one was answered FAILED; executor log, actions and time limit as above |
| `ScenarioRunner.VerdictOfShape` | src/universal_test/adapters/browser/scenario_runner.py:160-169 | pass exactly when every step passed; error or fail after the step that stopped the scenario |
| `ScenarioRunner.CountsOfShape` | src/universal_test/adapters/browser/scenario_runner.py:70-84 | passed_steps and skipped_steps follow from where the scenario stopped |
| `FunctionalCompare.CompareFunctional` | src/universal_test/regression/functional_compare.py:41-104 | its findings, counters that count each kind of change and leave no test out, and the differences of the counts per status |
| `FunctionalCompare.FindingsAreTheChanges` | src/universal_test/regression/functional_compare.py:27-86 | a HIGH regression is reported exactly for the tests that went from passed to failed or error, a MEDIUM change exactly for the other changes that are no improvement |
| `FunctionalCompare.FunctionalStatusMeans` | src/universal_test/regression/functional_compare.py:41-104 | the category fails exactly when a test went from passed to failed or error, and otherwise warns exactly when one changed without getting better |
| `FunctionalCompare.ClassifyMeans` | src/universal_test/regression/functional_compare.py:27-38 | what each kind of change means in terms of the two statuses |
| `FunctionalCompare.CountsAreDifferences` | src/universal_test/regression/functional_compare.py:89-98 | the five counts per status, then and now, with their differences |
| `FunctionalCompare.SelfComparisonIsClean` | src/universal_test/regression/functional_compare.py:41-104 | test results compared with themselves raise nothing |
| `PerformanceCompare.CompareLevel` | src/universal_test/regression/performance_compare.py:42-150 | the metrics of one level in order, each with its change, and one HIGH finding per regressed one |
| `PerformanceCompare.DeltasMean` | src/universal_test/regression/performance_compare.py:42-150 | the six metrics of a level, in order: not comparable when missing in one run or a percentage of zero, otherwise regressed, improved or unchanged by their own tolerance and direction |
| `PerformanceCompare.ComparePerformance` | src/universal_test/regression/performance_compare.py:153-189 | findings and metric deltas of the common levels, in ascending order, and NOT_ASSESSED without data or without common levels |
| `PerformanceCompare.FindingsAreTheRegressions` | src/universal_test/regression/performance_compare.py:42-189 | a metric is reported at a concurrency exactly when both runs have it and it got worse beyond its own tolerance |
| `PerformanceCompare.PerformanceStatusMeans` | src/universal_test/regression/performance_compare.py:153-189 | not assessed exactly without a common level; otherwise it fails exactly when a metric got worse beyond its tolerance at one, and passes if not |
| `PerformanceCompare.LatencyDriftIsBounded` | src/universal_test/regression/performance_compare.py:48-59 | k comparisons in a row without a regression bound the last latency by the first times (1 + t/100)^k |
| `PerformanceCompare.RpsDriftIsBounded` | src/universal_test/regression/performance_compare.py:83-93 | and the last throughput from below, for tolerances up to 100 percent |
| `PerformanceCompare.ErrorRateDriftIsBounded` | src/universal_test/regression/performance_compare.py:117-129 | over any number of comparisons without a regression the error rate rises by at most the tolerance each time |
| `PerformanceCompare.ChangesMean` | src/universal_test/regression/performance_compare.py:36-129 | what a regression and an improvement are for latency, throughput and error rate, without division |
| `PerformanceCompare.LatencySwap` | src/universal_test/regression/performance_compare.py:36-59 | swapping the runs turns an improvement into a regression; a regression becomes an improvement exactly when it also exceeds the tolerance measured from the larger value |
| `PerformanceCompare.RpsSwap` | src/universal_test/regression/performance_compare.py:83-93 | swapping the runs turns a drop in throughput into an improvement; an improvement becomes a regression exactly when it also exceeds the tolerance measured from the larger value, and is unchanged otherwise |
| `PerformanceCompare.SwapIsNotSymmetric` | src/universal_test/regression/performance_compare.py:36-59 | the concrete pair where it does not |
| `PerformanceCompare.ErrorRateSwap` | src/universal_test/regression/performance_compare.py:117-129 | error-rate changes swap exactly |
| `PerformanceCompare.SelfComparisonIsClean` | src/universal_test/regression/performance_compare.py:153-189 | a run compared with itself under non-negative tolerances raises nothing |
| `Baseline.RoundTrip` | src/universal_test/regression/models.py:399-445 | reading back what was written gives the same snapshot, for every snapshot and every combination of absent sections |
| `Baseline.OldFileLoads` | src/universal_test/regression/models.py:430-445 | a file without the browser and scenario keys loads as the snapshot without those sections |
| `BaselineFiles.MinimalFileLoads` | src/universal_test/regression/models.py:430-445 | without a schema version nothing loads; a file with nothing else loads with everything unknown, empty or absent |
| `BaselineFiles.FalsySectionIsAbsent` | src/universal_test/regression/models.py:439-443 | a section that is missing, null or empty loads as absent |
| `Baseline.SourceRoundTrip` | src/universal_test/regression/models.py:160-175 | round trip of the source section |
| `Baseline.DiscoveryRoundTrip` | src/universal_test/regression/models.py:178-197 | round trip of the discovery section |
| `Baseline.FunctionalRoundTrip` | src/universal_test/regression/models.py:200-228 | round trip of the functional section |
| `Baseline.BrowserRoundTrip` | src/universal_test/regression/models.py:231-262 | round trip of the browser section |
| `Baseline.ScenarioRoundTrip` | src/universal_test/regression/models.py:265-291 | round trip of the scenario section |
| `Baseline.PerformanceRoundTrip` | src/universal_test/regression/models.py:294-320 | round trip of the performance section |
| `Baseline.TableRoundTrip` | src/universal_test/regression/models.py:323-349 | round trip of a database table |
| `Baseline.DatabaseRoundTrip` | src/universal_test/regression/models.py:352-371 | round trip of the database section |
| `Baseline.AssessmentRoundTrip` | src/universal_test/regression/models.py:374-396 | round trip of the assessment section |
| `RegressionEngine.ReloadedSnapshotIsClean` | src/universal_test/regression/engine.py:22-58 | a snapshot saved, loaded and compared with itself has no finding but those of the other comparators, no version warning, and is not worse than UNKNOWN when they are clean |
| `RegressionEngine.RegressedTestIsFound` | src/universal_test/regression/engine.py:22-58 | a test whose last entry went from passed to failed or error is a HIGH finding of the summary, which fails |
| `RegressionEngine.RegressedMetricIsFound` | src/universal_test/regression/engine.py:22-58 | so is a metric whose number at a common concurrency got worse beyond its tolerance |
| `QualityGate.CollectRules` | src/universal_test/quality_gate/signals.py:25-106 | unreachable targets go to the one list; failures, breaches, every regression finding with its severity, schema and discovery changes and the overall status to the other, in order |
| `QualityGate.Evaluate` | src/universal_test/quality_gate/engine.py:49-90 | the loops compute the gate result whose exit code, findings and monotonicity the rows below characterise |
| `QualityGate.SignalsAre` | src/universal_test/quality_gate/signals.py:25-106 | which signals are seen, in terms of the categories and findings: unreachable targets, failures, breaches, an unassessed database, each regression finding with its severity, schema and discovery changes, and the overall status |
| `QualityGate.DefaultGateExactly` | src/universal_test/quality_gate/engine.py:49-90 | the default policy from categories and findings to the exit code: 3 exactly when the functional or performance target was unreachable; else 1 exactly when one of the two warns or something regressed as HIGH or CRITICAL; else 0, with a warning exactly for a MEDIUM finding and for database or discovery changes |
| `QualityGate.ExitCodeMeans` | src/universal_test/quality_gate/models.py:35-55 | exit code 3 exactly when a target was unreachable and the policy is silent about it, else 1 exactly when the policy fails on some signal, else 0 |
| `QualityGate.ReportedAreVerdicts` | src/universal_test/quality_gate/engine.py:60-76 | reported are exactly the signals the policy has a verdict on, with that verdict |
| `QualityGate.StricterNeverPasses` | src/universal_test/quality_gate/models.py:83-89 | enlarging fail_on never turns a non-zero exit code into 0 |
| `QualityGate.WarningNeverLiftsFailure` | src/universal_test/quality_gate/models.py:83-89 | enlarging warn_on never lifts exit code 1 |
| `QualityGate.WarningLiftsExactly` | src/universal_test/quality_gate/engine.py:54-63 | enlarging warn_on turns a non-zero code into 0 exactly when only an unreachable target was wrong, on which the policy was silent before and is not any more |
| `QualityGate.WarningLiftsError` | src/universal_test/quality_gate/engine.py:54-63 | a concrete policy that turns 3 into 0 |
| `QualityGate.RegressedTestBlocks` | src/universal_test/quality_gate/engine.py:49-90 | snapshots to exit code: under the default policy a test that went from passed to failed or error gives 3 with an unreachable target, 1 otherwise |
| `QualityGate.UnreachableTargetErrors` | src/universal_test/quality_gate/engine.py:49-82 | samples to exit code: under the default policy 3 exactly when requests were made and all failed in transport, or the functional target was unreachable |
| `QualityGate.RegressedMetricBlocks` | src/universal_test/quality_gate/engine.py:49-90 | the same for a metric that regressed beyond its tolerance |
| `QualityGate.QuietRunPasses` | src/universal_test/quality_gate/models.py:58-67 | under the default policy a run with only PASS, UNKNOWN or NOT_ASSESSED categories and no regression finding passes with exit code 0 and reports nothing |

## Left out

- Project discovery, manifest parsing, frontend heuristics, redaction, the command line, all renderers and the GUI front end: no invariant beyond substring tests and formatting.
- Database drivers, Playwright, httpx, sockets, Tkinter, git and the file system: only what they answer and how long they take appears, as arbitrary values or as parameters.
- Reading JSON and YAML text: the model starts from parsed values. Percent-decoding and array indices in JSON Pointers: the code does neither.
- Floating point: times, rates, percentages and ranks are exact numbers, without rounding, infinities or NaN; so `percentile` can be one rank off where rounding moves `p / 100 * n` across an integer.
- Copies: `copy.deepcopy` and aliasing between the parts of an inlined document are not visible on values.
- `int(text)` and `float(text)` for a textual "minimum": an arbitrary function (`TextNumbers`).
- PathParams.SequentialExactly: parameters of which one value has an unpaired opening and one an unpaired closing brace; their pieces can join across the text between them (`PiecesJoin`), so the condition is necessary there (`SettledIsNecessary`) but not sufficient. `OrdersAgreeExactly` leaves out the same parameters.
- JsonPath.ResolvePath: index digits are ASCII digits; the other decimal digits that `\d` accepts are not modelled.
- RequestData.GenerateAllOfLoop: "properties" of a branch given as a list of pairs, which `dict.update` accepts, counts as an exception here.
- Message texts, evidence, recommendations, durations and timestamps of findings, warnings and results.
- EventStream.StreamDelivers: one reader per run, whose connection does not break; a second reader would share the queue.
- RunRegistry.Registry.Start: the class has no locks; the interleavings are those of the step relation in the same module.
- LevelProtocol and DurationProtocol: the thread pools and the queue are step relations, not thread code; an executor call may take any number of steps, but none raises, as its contract says.
- LoadRunner.Run: what a level measures comes in as a value; `TotalCallsAreBounded` ties it to the pools.
- BrowserExecutor.Session: the page, its console messages and the contents of the context; a zero timeout, which Playwright takes as unbounded, is excluded because the configuration clamps timeouts to at least one second.
- ScenarioRunner.RunScenario: building the TestCase of a step from its fields, and the assertions' own outcomes, which are arbitrary.
- Baseline.RoundTrip: a file with values of other types than the tool writes is rejected here, where the code would load some of them and fail later.
- RegressionEngine.ReloadedSnapshotIsClean: the comparators for databases, discovery, assessment, browser tests and scenarios are represented by the categories they return, so their silence is a hypothesis; they are near copies of the functional comparator or only informational.
- PerformanceCompare.ComparePerformance: the numbers inside the metric deltas; each carries its metric and its change.
- QualityGate.Evaluate: the summary counts of the result.
