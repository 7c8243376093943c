# Verified models of Taskurotta's algorithms

A Dafny 4.11 project that models the algorithmic parts of the Taskurotta repository, including the third-party
code it carries, and proves what they are for. It stands beside the sources: nothing here runs them.
`dafny verify dfyconfig.toml` checks everything.

The parts, hardest first:

- **Series merging in the plot library.** `Polyline` has rows, flat arrays and piecewise-linear curves; `Merge`
  the two-cursor merge of two sorted series as rounds over rows; `GappedLines` what it makes of lines with any
  gaps, `Bars` what of series drawn without lines, `StackedCells` what of bottoms and further cells; `FlatMerge`
  the step from offsets in flat arrays to rows; `LineSteps` the rule for lines drawn in steps; `MergeLoop` what
  the two plug-ins' loops have in common; `Stack` and `FillBetween` their rounds and loops on flat arrays, the
  search for the series below, and the stacking of all series of a plot; `StackedCurves`, `SteppedCurves` and
  `FillCurves` what is then drawn. `Threshold` splits a series at a level, `Thresholds` at one level after
  another.
- **Bulk writes and cursors.** `WriteModel` says what executing requests one at a time means, over an abstract
  server; `Runs` and `UnorderedRuns` cut requests into runs; `BulkWrite` sends runs as commands or one by one and
  maps the indexes of errors and upserts back; `BulkReport` says what a report tells of the server's answers;
  `LegacyInsert` packs documents into messages; `Cursor` fetches query results in batches under a limit.
- **The sanitizer.** `HtmlParser` is the stack machine over tag soup, `HtmlRules` what its rounds and whole runs
  come to, `HtmlText` what text and tags they report, `HtmlShape` what shape they keep, `HtmlWriter` its handler,
  `HtmlEvents` what nesting means for both, `HtmlTables` the element tables. `EncodeEntities` has the five
  replacement passes, the single pass they equal and the decoder.
- **Heartbeats.** `Heartbeat` interleaves worker threads and the pulse thread over the shared map of timeouts;
  `HeartbeatTrace` reads off the steps of a run what becomes of every value.
- **Plot geometry and state.** `Geometry` and `Clip` cover the clipping of line segments and the drawing loop;
  `TextCache` and `TextCanvas` the cache of text elements; `Navigate` zooming and panning; `Categories` the
  coding of texts as indexes; `Matrix` and `CanvasContext` the transformation matrices with save and restore,
  `CanvasDrawing` the arc scales and styles.
- **Structure builders.** `MenuTree` and `MenuBuilder` build the documentation menu; `RouteText` and `Routes`
  fill route templates and match paths, `RouteParts` and `RouteMarks` with any parts and with marked keys;
  `AnnotatedClass` searches a class graph for an annotation.

Code that works by steps is modelled by methods with the same loops and branches, on classes where the source
has objects, and each method is tied to a function about which the properties are proved as lemmas.

## Contracts in place of code that is elsewhere

- An index map is a finite map; the encoder takes a nonempty prefix of the requests into a message; the
  combiner stops exactly if the bulk write is ordered and a write error was seen; the server is an arbitrary
  step function whose answer to a request may name an upserted document. `IndexMap`, `BulkWriteBatchCombiner`, the
  command encoders and `WriteRequest` are not part of this model. The order of the request types in the sorted map
  is taken to be insert, update, replace, remove; only the order of unordered runs depends on it.
- A query's server returns min(|n|, remaining) documents for a batch size n other than 0 and at least one of
  any remaining for n = 0; it closes the cursor for a negative n and when it finds nothing more; a kill succeeds.
- Each regular expression of the parser is a function whose matches are nonempty pieces of the input;
  lower-casing twice is lower-casing once. A route's pattern is a list of characters and keys with a relation
  that says which captures are a match; which one an engine picks is left open.
- Workers run different tasks at any time and a task is not run again, as the queue hands each out once.
- A class graph has no cycles in inheritance, and an annotation type has no superclass and no interface but
  Annotation.
- Plot coordinates are exact reals and indexes unbounded integers. Text elements, colours, styles and
  documents are opaque.

## What turned out otherwise

- **Heartbeats** (`SendsAfterRelease`, `TwoSendsAfterErrorRelease`): when a decision cannot be serialized, the
  error decision is released before the `finally` block removes the task's timeout. Two updates can follow the
  release exactly if one was held by the pulse thread and another in the map; on every other path at most one can.
- **Sanitizer** (`UnarySpecialExact`, `DroppedBetweenExact`, `ResumeExact`, `InheritedNameIsUnarySpecial`): a
  self-closed script or style tag makes the writer drop everything after it until that name is closed, end tags of
  open elements included. A tag named `constructor` always does, because the tables inherit that name.
- **Thresholds** (`GapIsBridged`, `NullGapIsBridged`, `ChainIsExact`): a gap counts as a sample of height 0 and goes
  to one list only, so the other list can draw a line across it, and across several gaps. A further level does the
  same to the breaks that a level before has made.
- **Line steps** (`HollowSteps`): the plug-ins test the new row for a gap where the library's own insertion
  (jquery.flot.js:1150-1153) tests the row before it, so a point that directly follows a gap gets a middle point
  without a height in front of it: this happens exactly if both lines are drawn somewhere behind a gap of one.
- **Cursor** (`PromiseKept`): a batch size of 1 or below 0 ends the results after one batch even if the limit
  promises more.
- **Text cache** (`AddText`, `AddThenRemove`): a text named like an inherited property, such as `constructor`,
  makes `addText` and `removeText` throw. `removeText` takes the place after alignment, `addText` the place before.
- **Menu** (`PreorderIsReturning`, `NothingLost`): items that follow the last top item never reach the menu, and
  likewise in every group.
- **Zoom** (`ZoomInvertsIf`): a window that misses its pan range comes out with its minimum above its maximum,
  unless the zoom range refuses the negative width.
- **Routes** (`CapturedIffSupplied`): a value that is missing, empty or has a slash does not come back.
- **Categories** (`ReadBack`): a label such as `constructor` is found in the map through inheritance and its
  points get no index.

## Model

| member | source | states |
|---|---|---|
| `Merge.StackIsSum` | dropwizard/src/main/resources/assets/js/flot/jquery.flot.stack.js:80-174 | main result: for two gap-free lines the stacked line covers the overlap and is, at every x of it, the sum of the two curves |
| `Merge.StackedRowsAreSums` | dropwizard/src/main/resources/assets/js/flot/jquery.flot.stack.js:107-163 | the stacked rows have strictly increasing x, exactly the x of either input inside the overlap, each at the sum of the two heights |
| `Merge.StackedRange` | dropwizard/src/main/resources/assets/js/flot/jquery.flot.stack.js:92-99 | the stacked line covers exactly the x both lines cover |
| `Merge.SumThroughout` | dropwizard/src/main/resources/assets/js/flot/jquery.flot.stack.js:107-163 | a line that carries the sum at its rows and has a row wherever an input has one is the sum in between too |
| `Merge.StepOnCurves` | dropwizard/src/main/resources/assets/js/flot/jquery.flot.stack.js:107-163 | one round on two lines keeps the cursors aligned and puts out only a row on both curves |
| `Merge.EmissionsExactly` | dropwizard/src/main/resources/assets/js/flot/jquery.flot.stack.js:80-163 | the merge puts out an x if and only if it is left in an input and lies in both ranges |
| `Merge.StackKeepsSorted` | dropwizard/src/main/resources/assets/js/flot/jquery.flot.stack.js:80-163 | sorted inputs, gaps and equal x included, give a sorted result, for lines and bars |
| `Merge.NoDivisionByZero` | dropwizard/src/main/resources/assets/js/flot/jquery.flot.stack.js:128-152 | whenever a height is interpolated the two rows used have different x |
| `Merge.StepKeepsBehind` | dropwizard/src/main/resources/assets/js/flot/jquery.flot.stack.js:80-163 | what one cursor has passed never lies right of what the other still has |
| `Merge.StackAndFillInLockstep` | dropwizard/src/main/resources/assets/js/flot/jquery.flot.fillbetween.js:88-198 | on the same rows with zero bottoms, gaps included, stacking and fill-between put out the same x, the same bottoms, and stacked height = fill height + bottom |
| `StackedCells.StackedOnBottoms` | dropwizard/src/main/resources/assets/js/flot/jquery.flot.stack.js:101-163 | row by row, whatever bottoms the series has: a stacked point is the filled one with height and bottom raised by the bottom recorded there, and all other cells are those of the row of the series it comes from |
| `Polyline.RowsOfFlatten` | dropwizard/src/main/resources/assets/js/flot/jquery.flot.stack.js:65-68 | cutting a flat array into rows undoes laying the rows out flat |
| `Polyline.FlattenOfRows` | dropwizard/src/main/resources/assets/js/flot/jquery.flot.stack.js:65-68 | laying out the rows of a flat array gives the array back |
| `Polyline.EvalOnSegment` | dropwizard/src/main/resources/assets/js/flot/jquery.flot.stack.js:128-152 | between two neighbouring rows the curve is the straight line through them |
| `Polyline.CurveIsChord` | dropwizard/src/main/resources/assets/js/flot/jquery.flot.stack.js:128-152 | where a line has no row its curve is a chord of itself |
| `FlatMerge.RowsAreLaid` | dropwizard/src/main/resources/assets/js/flot/jquery.flot.stack.js:80-90 | offsets counted up row by row find the rows of the array |
| `FlatMerge.RoundMatches` | dropwizard/src/main/resources/assets/js/flot/jquery.flot.stack.js:80-163 | a round on the flat arrays is the round of the merge at the same rows, and its interpolation is defined |
| `FlatMerge.NextRound` | dropwizard/src/main/resources/assets/js/flot/jquery.flot.stack.js:80-163 | from any point of the loop the next round does what the merge does and leaves the loop where the merge is |
| `Stack.MergePair` | dropwizard/src/main/resources/assets/js/flot/jquery.flot.stack.js:107-163 | the two-point case writes and moves exactly as the round of the merge says, bottom cell included |
| `Stack.MergeRound` | dropwizard/src/main/resources/assets/js/flot/jquery.flot.stack.js:86-163 | the body of the loop, with its gap and end cases, is one round of the merge |
| `Stack.StackPoints` | dropwizard/src/main/resources/assets/js/flot/jquery.flot.stack.js:80-176 | the loop on flat arrays computes the stacked rows, with the line-steps rule if asked for |
| `Stack.MergeLaid` | dropwizard/src/main/resources/assets/js/flot/jquery.flot.stack.js:80-174 | the loop, round by round and with the line-steps rule at the end of each, writes the stacked rows |
| `Stack.FindMatchingSeries` | dropwizard/src/main/resources/assets/js/flot/jquery.flot.stack.js:44-55 | finds the last earlier series with the same key |
| `Stack.StackData` | dropwizard/src/main/resources/assets/js/flot/jquery.flot.stack.js:57-177 | without a key or a matching series nothing changes, otherwise the points become the stack on that series |
| `Stack.StackAllSeries` | dropwizard/src/main/resources/assets/js/flot/jquery.flot.stack.js:57-179 | after all series are processed in order each holds the points of its stacked value |
| `Stack.SeriesIsGroupSum` | dropwizard/src/main/resources/assets/js/flot/jquery.flot.stack.js:44-176 | by induction over matching series: the k-th series of a group of gap-free lines is the sum of the group up to it, exactly where all of them are defined |
| `Stack.AddSeries` | dropwizard/src/main/resources/assets/js/flot/jquery.flot.stack.js:61-176 | stacking on a partial sum of the group gives the next partial sum |
| `Stack.StepsNeedLines` | dropwizard/src/main/resources/assets/js/flot/jquery.flot.stack.js:74-174 | a series without lines is stacked row by row whatever its steps setting |
| `FillBetween.FillPair` | dropwizard/src/main/resources/assets/js/flot/jquery.flot.fillbetween.js:129-198 | the two-point case writes and moves as the round of the merge says, recording only the bottom |
| `FillBetween.FillRound` | dropwizard/src/main/resources/assets/js/flot/jquery.flot.fillbetween.js:96-198 | the body of the loop, with its gap and end cases, is one round of the merge |
| `FillBetween.ComputeFillBottoms` | dropwizard/src/main/resources/assets/js/flot/jquery.flot.fillbetween.js:74-213 | the loop on flat arrays computes the filled rows, with the line-steps rule if asked for |
| `FillBetween.FillLaid` | dropwizard/src/main/resources/assets/js/flot/jquery.flot.fillbetween.js:88-211 | the loop, round by round and with the line-steps rule at the end of each, writes the filled rows |
| `MergeLoop.EndRound` | dropwizard/src/main/resources/assets/js/flot/jquery.flot.stack.js:165-173 | in either plug-in, after a round and the line-steps rule what is written is what the merge has put out so far, with the rule |
| `MergeLoop.LoopGoes` | dropwizard/src/main/resources/assets/js/flot/jquery.flot.stack.js:80-163 | the next round divides by nothing that is zero and moves a cursor, by whole rows |
| `FillBetween.FindBottomSeries` | dropwizard/src/main/resources/assets/js/flot/jquery.flot.fillbetween.js:42-60 | the first series with the id, else a number in range taken as an index, else none |
| `FillCurves.FillIsPair` | dropwizard/src/main/resources/assets/js/flot/jquery.flot.fillbetween.js:88-198 | main result: for two lines the filled line is, over exactly the overlap, the upper curve, and its bottoms form the lower curve |
| `FillCurves.FilledRowsArePairs` | dropwizard/src/main/resources/assets/js/flot/jquery.flot.fillbetween.js:129-198 | the filled rows have strictly increasing x, exactly the x of either input inside the overlap, on the upper curve with the lower curve as bottom |
| `GappedLines.MergedShowsBoth` | dropwizard/src/main/resources/assets/js/flot/jquery.flot.stack.js:80-163 | main result: whatever gaps two lines have, the rows put out show the heights u and v at x if and only if the upper line has height u there and the lower one height v |
| `GappedLines.StackShowsSum` | dropwizard/src/main/resources/assets/js/flot/jquery.flot.stack.js:80-174 | main result: the stacked line is drawn at (x, y) if and only if both lines are drawn at x and their heights add up to y, so it has a gap where either has one; and it is single-valued again |
| `GappedLines.FillShowsBoth` | dropwizard/src/main/resources/assets/js/flot/jquery.flot.fillbetween.js:88-198 | main result: the filled band reaches from v to u at x if and only if the line has height u there and the line below it height v, whatever gaps they have |
| `GappedLines.PairsFrom` | dropwizard/src/main/resources/assets/js/flot/jquery.flot.stack.js:80-163 | from any point of the loop on, the rows still to come show exactly what both lines show further right |
| `GappedLines.StepMeets` | dropwizard/src/main/resources/assets/js/flot/jquery.flot.stack.js:107-163 | a row that comes out stands on both lines; a round on two points puts none out only if one of the lines is not underway |
| `GappedLines.StepUnderway` | dropwizard/src/main/resources/assets/js/flot/jquery.flot.stack.js:80-163 | every round keeps it that the row put out last ends where both lines have got to, or is a gap if one of them is not underway |
| `GappedLines.LineShows` | dropwizard/src/main/resources/assets/js/flot/jquery.flot.stack.js:128-152 | what a line without gaps shows at x is its height there, over its whole range |
| `StackedCurves.SeriesShowsGroup` | dropwizard/src/main/resources/assets/js/flot/jquery.flot.stack.js:44-176 | main result for a plot, by induction over matching series: each line of a group, gaps included, is drawn exactly at the sums of the lines of its group up to it |
| `LineSteps.MaintainSteps` | dropwizard/src/main/resources/assets/js/flot/jquery.flot.stack.js:165-173 | the end of a round on the flat array writes what the rule makes of the rows so far |
| `LineSteps.SteppedIsLevel` | dropwizard/src/main/resources/assets/js/flot/jquery.flot.stack.js:165-173 | with line steps any two neighbouring points share x or height |
| `LineSteps.SteppedIsPieces` | dropwizard/src/main/resources/assets/js/flot/jquery.flot.stack.js:165-173 | every row stays, in order, and what is added is, before each point that differs from the row before it in x and in height, that point once more at the height of that row |
| `LineSteps.HollowBehindGap` | dropwizard/src/main/resources/assets/js/flot/jquery.flot.fillbetween.js:200-210 | the rule writes a point with an x and no height exactly if some point directly follows a gap |
| `SteppedCurves.HollowSteps` | dropwizard/src/main/resources/assets/js/flot/jquery.flot.fillbetween.js:88-210 | main result: with line steps either plug-in writes a point with an x and no height if and only if, behind a gap of one of the two lines, there is an x where both are drawn |
| `SteppedCurves.KnotsOnBoth` | dropwizard/src/main/resources/assets/js/flot/jquery.flot.stack.js:80-163 | of sorted lines, x repeated included, a row comes out only where both lines are drawn at or after their cursors |
| `SteppedCurves.KnotAhead` | dropwizard/src/main/resources/assets/js/flot/jquery.flot.stack.js:80-163 | and one will come out if both are drawn at an x right of all that is passed |
| `SteppedCurves.HollowInstance` | dropwizard/src/main/resources/assets/js/flot/jquery.flot.stack.js:165-173 | an instance: a line with one gap, stacked on a line without one |
| `Bars.StackedBars` | dropwizard/src/main/resources/assets/js/flot/jquery.flot.stack.js:80-163 | main result for series drawn without lines: the merge puts out the rows of the series in order, each point raised by the height below it at its x, if there is one, behind a gap row for every gap that the series below has left of it |
| `Bars.BarPoints` | dropwizard/src/main/resources/assets/js/flot/jquery.flot.stack.js:101-163 | no point is lost, none is added, and each keeps its x |
| `WriteModel.OrderedStopsAtFirstFailure` | hazelcast/src/main/java/com/mongodb/DBCollectionImpl.java:871-894 | ordered execution reports at most one error, that of the first failing request under its own index, and executes nothing after it |
| `WriteModel.UnorderedExecutesAll` | hazelcast/src/main/java/com/mongodb/DBCollectionImpl.java:871-894 | unordered execution executes everything and reports exactly the requests that fail |
| `WriteModel.OneByOneConcat` | hazelcast/src/main/java/com/mongodb/DBCollectionImpl.java:445-465 | executing a list in two parts, the second only if the first does not stop, is executing the list |
| `WriteModel.RemapExecution` | hazelcast/src/main/java/com/mongodb/DBCollectionImpl.java:450-459 | numbering requests by original index before execution equals mapping the indexes of errors and upserts afterwards |
| `Runs.Run.Add` | hazelcast/src/main/java/com/mongodb/DBCollectionImpl.java:699-702 | adds the request and maps its local to its original index |
| `Runs.OrderedRunIterator.GetStartIndexOfNextRun` | hazelcast/src/main/java/com/mongodb/DBCollectionImpl.java:607-615 | the end of the longest run of one type and allowed size |
| `Runs.OrderedRunIterator.Next` | hazelcast/src/main/java/com/mongodb/DBCollectionImpl.java:597-605 | the next run holds exactly the requests up to that end, each mapped to its original index |
| `Runs.OrderedRunIterator.HasNext` | hazelcast/src/main/java/com/mongodb/DBCollectionImpl.java:592-594 | tells whether requests are left |
| `Runs.GreedyIsOptimal` | hazelcast/src/main/java/com/mongodb/DBCollectionImpl.java:588-615 | no cut of the list into runs of one type and allowed size has fewer runs than the one the generator makes |
| `Runs.GreedyStaysAhead` | hazelcast/src/main/java/com/mongodb/DBCollectionImpl.java:588-615 | after k runs the generated cut is never behind any other cut |
| `UnorderedRuns.RunsPartition` | hazelcast/src/main/java/com/mongodb/DBCollectionImpl.java:640-681 | all runs together contain every index exactly once; the runs of a type are its indexes in order, cut into full pieces; their number is the sum over types of n/max rounded up |
| `UnorderedRuns.OutBounded` | hazelcast/src/main/java/com/mongodb/DBCollectionImpl.java:657-674 | no more indexes are handed out than were read, which bounds the iteration |
| `UnorderedRuns.FullTracks` | hazelcast/src/main/java/com/mongodb/DBCollectionImpl.java:668-670 | handing out a full run keeps the account of what each type has had |
| `UnorderedRuns.DrainTracks` | hazelcast/src/main/java/com/mongodb/DBCollectionImpl.java:673 | handing out a last run keeps that account |
| `UnorderedRuns.UnorderedRunIterator.Collect` | hazelcast/src/main/java/com/mongodb/DBCollectionImpl.java:660-670 | one request goes to the pending run of its type, which is taken out if full |
| `UnorderedRuns.UnorderedRunIterator.FirstKey` | hazelcast/src/main/java/com/mongodb/DBCollectionImpl.java:673 | the first pending type in the order of the sorted map |
| `UnorderedRuns.UnorderedRunIterator.Next` | hazelcast/src/main/java/com/mongodb/DBCollectionImpl.java:658-674 | always succeeds when hasNext holds; the run is nonempty, of one type, at most the maximum, and full while requests are unread |
| `UnorderedRuns.UnorderedRunIterator.HasNext` | hazelcast/src/main/java/com/mongodb/DBCollectionImpl.java:653-655 | tells whether requests are unread or runs pending |
| `BulkWrite.WriteWithCommandProtocol` | hazelcast/src/main/java/com/mongodb/DBCollectionImpl.java:436-469 | however the encoder cuts the requests into messages, state and report are those of executing them one at a time |
| `BulkWrite.SendMessage` | hazelcast/src/main/java/com/mongodb/DBCollectionImpl.java:445-462 | one message takes a nonempty prefix, and report plus remaining requests still amount to the whole |
| `BulkWrite.ExecuteWriteProtocol` | hazelcast/src/main/java/com/mongodb/DBCollectionImpl.java:871-894 | the legacy protocol amounts to the same, so both protocols agree |
| `BulkWrite.ExecuteRun` | hazelcast/src/main/java/com/mongodb/DBCollectionImpl.java:863-869 | a run gives the same result through either protocol |
| `BulkWrite.CombinePart` | hazelcast/src/main/java/com/mongodb/DBCollectionImpl.java:160-170 | a part executed under local indexes and combined through its map, then the rest, is the whole under original indexes; after a stop there is no rest |
| `BulkWrite.OrderedPart` | hazelcast/src/main/java/com/mongodb/DBCollectionImpl.java:153-171 | the same for one ordered run in front of the requests after it |
| `BulkWrite.ExecuteOrdered` | hazelcast/src/main/java/com/mongodb/DBCollectionImpl.java:144-180 | main result: an ordered bulk write is one-at-a-time execution up to the first failure, errors and upserts under original indexes; an empty one is refused; the runs are the greedy cut |
| `BulkWrite.ExecuteUnordered` | hazelcast/src/main/java/com/mongodb/DBCollectionImpl.java:144-180 | main result: an unordered bulk write executes every request once in the order of its runs and reports each failure and upsert under its original index |
| `BulkWrite.AppendRun` | hazelcast/src/main/java/com/mongodb/DBCollectionImpl.java:160-170 | a further unordered run extends the executed order by its original indexes |
| `BulkReport.UnorderedReport` | hazelcast/src/main/java/com/mongodb/DBCollectionImpl.java:856-905 | main result, on the answers of the server alone: unordered execution counts the sum of what is answered, reports as upserts in order exactly the indexes and ids of the answers that name one, and each failure under its index with its code |
| `BulkReport.OrderedReport` | hazelcast/src/main/java/com/mongodb/DBCollectionImpl.java:144-180 | main result: ordered execution reports just that of the requests up to and including the first that fails, all if none does |
| `BulkReport.UpsertInstance` | hazelcast/src/main/java/com/mongodb/DBCollectionImpl.java:856-859 | an instance: one request whose answer names an id |
| `LegacyInsert.InsertWithWriteProtocol` | hazelcast/src/main/java/com/mongodb/DBCollectionImpl.java:517-546 | every document is sent once, in order; a message passes the doubled limit only with its last document, and each but the last does |
| `LegacyInsert.FillMessage` | hazelcast/src/main/java/com/mongodb/DBCollectionImpl.java:529-540 | the inner loop takes documents up to and including the first that passes the limit |
| `Cursor.PromiseKept` | hazelcast/src/main/java/com/mongodb/QueryResultIterator.java:84-105 | the first min(limit, total) documents are delivered exactly for batch sizes 0 and from 2 on, or when one batch is enough; sizes 1 and below 0 close the cursor after one batch |
| `Cursor.PromiseInstance` | hazelcast/src/main/java/com/mongodb/QueryResultIterator.java:84-105 | an instance: a batch size of 1 and a limit of 3 |
| `Cursor.ChoiceIsBatch` | hazelcast/src/main/java/com/mongodb/QueryResultIterator.java:84-105 | the size asked for is, with a batch size, the smaller of it and what is left of a limit; without one, what is left of the limit, or the choice of the server; it is negative exactly for a negative batch size or a single document |
| `Cursor.QueryResultIterator.Find` | hazelcast/src/main/java/com/mongodb/QueryResultIterator.java:57-68 | the first batch has exactly the documents asked for, min(|batch size|, limit), as far as the server has them; the counters agree with the server and no cursor is kept once the limit is met |
| `Cursor.QueryResultIterator.Init` | hazelcast/src/main/java/com/mongodb/QueryResultIterator.java:194-211 | a response is counted, `_numFetched` stays the sum of `_sizes` and within what is promised, and the cursor is killed at the limit |
| `Cursor.QueryResultIterator.KillCursor` | hazelcast/src/main/java/com/mongodb/QueryResultIterator.java:229-239 | afterwards there is no cursor, and without one nothing happens |
| `Cursor.QueryResultIterator.GetMore` | hazelcast/src/main/java/com/mongodb/QueryResultIterator.java:138-148 | the batch has exactly min(|batch size|, what is left of the limit, what the server has left) documents, with the request negative exactly for a negative batch size or a single document; an empty one leaves no cursor |
| `Cursor.QueryResultIterator.HasNext` | hazelcast/src/main/java/com/mongodb/QueryResultIterator.java:119-136 | true until exactly the promised number of documents is delivered; an error when closed |
| `Cursor.QueryResultIterator.Next` | hazelcast/src/main/java/com/mongodb/QueryResultIterator.java:107-117 | the next document of the result in order, no element at the end, an error when closed |
| `Cursor.QueryResultIterator.Close` | hazelcast/src/main/java/com/mongodb/QueryResultIterator.java:170-175 | closed without a cursor, whatever the state before |
| `Cursor.ReadAll` | hazelcast/src/main/java/com/mongodb/QueryResultIterator.java:107-148 | main result: a client reading to the end gets exactly the first documents the limit and batch size allow, whatever batch sizes the server picks |
| `Heartbeat.HeartbeatSafety` | bootstrap/src/main/java/ru/taskurotta/bootstrap/Bootstrap.java:206-220 | main result: under every interleaving the keys of `timeouts` are running tasks; what was sent for a task was put by it, in order, nothing twice; at most one send after its entry is removed for good; at most one released decision; at most one send after the release, two after a serialization error |
| `Heartbeat.SendsAfterRelease` | bootstrap/src/main/java/ru/taskurotta/bootstrap/ActorExecutor.java:115-148 | main result: after an accepted release, in any reachable state and of either kind, n values of the task can still be sent if and only if n is at most the number held or in the map |
| `Heartbeat.TwoSendsAfterErrorRelease` | bootstrap/src/main/java/ru/taskurotta/bootstrap/ActorExecutor.java:124-148 | two sends after a release are possible if and only if it is the release of a serialization error, before its `finally`, with one value held and another in the map |
| `Heartbeat.FailingRun` | bootstrap/src/main/java/ru/taskurotta/bootstrap/ActorExecutor.java:124-148 | a run from the start that ends in such a state |
| `Heartbeat.StepKeysRunning` | bootstrap/src/main/java/ru/taskurotta/bootstrap/ActorExecutor.java:115-148 | every step of every thread keeps the keys among running tasks |
| `Heartbeat.StepOrder` | bootstrap/src/main/java/ru/taskurotta/bootstrap/Bootstrap.java:210-217 | every step keeps the values sent an in-order subsequence of those put |
| `Heartbeat.StepCounts` | bootstrap/src/main/java/ru/taskurotta/bootstrap/Bootstrap.java:210-217 | every step keeps the counts of late sends and of releases within their bounds |
| `Heartbeat.StepApart` | bootstrap/src/main/java/ru/taskurotta/bootstrap/ActorExecutor.java:70-82 | every step keeps in-flight tasks of different workers different |
| `Heartbeat.RunInv` | bootstrap/src/main/java/ru/taskurotta/bootstrap/ActorExecutor.java:70-168 | the invariant holds after every run |
| `HeartbeatTrace.RunTells` | bootstrap/src/main/java/ru/taskurotta/bootstrap/Bootstrap.java:206-220 | main result: after every run each value put for a task has one fate, read off the steps: waiting, underway, delivered, lost, replaced by a later put or removed by `finally`; what was sent is exactly the delivered ones in order; the map has the one waiting, the pulse thread the one underway |
| `HeartbeatTrace.TraceSafety` | bootstrap/src/main/java/ru/taskurotta/bootstrap/Bootstrap.java:206-220 | on the steps alone: at most one delivery after the `finally`, at most one accepted release, and after it at most one delivery, two if serialization failed |
| `HeartbeatTrace.WorkersOrder` | bootstrap/src/main/java/ru/taskurotta/bootstrap/ActorExecutor.java:70-168 | a step of a worker is possible exactly if it may follow the step of that worker before it, and only new tasks are polled |
| `HeartbeatTrace.PulseOrder` | bootstrap/src/main/java/ru/taskurotta/bootstrap/Bootstrap.java:210-217 | the pulse thread takes a value exactly when it holds none, and sends or fails exactly when it holds one |
| `HtmlParser.Parser.ParseEndTag` | dropwizard/src/main/resources/assets/lib/angular-sanitize/angular-sanitize.js:409-426 | the closest open element of the name and all above it close, innermost first; an unknown name is ignored; no name closes everything |
| `HtmlParser.Parser.ParseStartTag` | dropwizard/src/main/resources/assets/lib/angular-sanitize/angular-sanitize.js:378-407 | closes the inline elements under a block element and an optional-end twin, then opens and reports the tag |
| `HtmlRules.KeptUnder` | dropwizard/src/main/resources/assets/lib/angular-sanitize/angular-sanitize.js:380-388 | a start tag closes exactly what it must: an element is closed if and only if it and all above it are inline ones under a block tag, or it is the optional-end twin right below those |
| `HtmlRules.AfterEnd` | dropwizard/src/main/resources/assets/lib/angular-sanitize/angular-sanitize.js:409-426 | an end tag leaves exactly what is below the closest open element of its name, everything if there is none, nothing if it has no name |
| `HtmlParser.Parser.StripInline` | dropwizard/src/main/resources/assets/lib/angular-sanitize/angular-sanitize.js:380-384 | the loop closes exactly the inline elements on top |
| `HtmlParser.Parser.ParseMarkup` | dropwizard/src/main/resources/assets/lib/angular-sanitize/angular-sanitize.js:299-352 | a round outside script and style takes exactly the next piece of the input, and stack and events change as that piece demands |
| `HtmlParser.Parser.ParseSpecial` | dropwizard/src/main/resources/assets/lib/angular-sanitize/angular-sanitize.js:354-366 | a round inside script or style reports the raw text up to the end tag, if there is one, and closes the element in any case |
| `HtmlParser.Parser.ParseChars` | dropwizard/src/main/resources/assets/lib/angular-sanitize/angular-sanitize.js:345-352 | reports the decoded text before the next `<`, after what was already taken, and leaves the input there |
| `HtmlParser.Parser.Parse` | dropwizard/src/main/resources/assets/lib/angular-sanitize/angular-sanitize.js:292-376 | ends on every input; result and events are those of the rounds one after another; on normal return the events nest and close and nothing is left, otherwise the rest is reported |
| `HtmlRules.PieceOf` | dropwizard/src/main/resources/assets/lib/angular-sanitize/angular-sanitize.js:292-372 | every round shortens the input or leaves it as it is, and then the input is refused |
| `HtmlRules.RunStep` | dropwizard/src/main/resources/assets/lib/angular-sanitize/angular-sanitize.js:292-373 | after a round, what is reported and what is still to come make up the same whole run, or the run is over |
| `HtmlText.PieceIsCut` | dropwizard/src/main/resources/assets/lib/angular-sanitize/angular-sanitize.js:292-372 | every piece is cut from the input: its text and tag, what delimits them, and the rest make up the input again |
| `HtmlText.KindOfPiece` | dropwizard/src/main/resources/assets/lib/angular-sanitize/angular-sanitize.js:299-366 | which kind of piece comes next, by what the input starts with and the order of the tests |
| `HtmlText.RunSays` | dropwizard/src/main/resources/assets/lib/angular-sanitize/angular-sanitize.js:292-407 | main result: but for the end tags, which nesting decides, a run reports exactly what its pieces say, in order |
| `HtmlParser.StartKeepsShape` | dropwizard/src/main/resources/assets/lib/angular-sanitize/angular-sanitize.js:378-393 | after a start tag no block element stands on an inline one, no optional-end element on its twin, nothing on a special one |
| `HtmlShape.ShapeThroughout` | dropwizard/src/main/resources/assets/lib/angular-sanitize/angular-sanitize.js:292-407 | main result: at every moment of every run the open elements have that shape |
| `HtmlShape.RoundStays` | dropwizard/src/main/resources/assets/lib/angular-sanitize/angular-sanitize.js:378-426 | one round keeps the shape after each of its events |
| `HtmlParser.CloseConsistent` | dropwizard/src/main/resources/assets/lib/angular-sanitize/angular-sanitize.js:418-425 | closing down to a position keeps the stack what the events leave open |
| `HtmlParser.OpenConsistent` | dropwizard/src/main/resources/assets/lib/angular-sanitize/angular-sanitize.js:390-406 | so does opening an element |
| `HtmlEvents.ReplayClosing` | dropwizard/src/main/resources/assets/lib/angular-sanitize/angular-sanitize.js:418-425 | the end events of a closing leave exactly the elements below open |
| `HtmlWriter.SanitizeWriter.Start` | dropwizard/src/main/resources/assets/lib/angular-sanitize/angular-sanitize.js:480-502 | the writer object is the writer on one more event |
| `HtmlWriter.SanitizeWriter.End` | dropwizard/src/main/resources/assets/lib/angular-sanitize/angular-sanitize.js:503-513 | the same for an end tag |
| `HtmlWriter.WriteFollows` | dropwizard/src/main/resources/assets/lib/angular-sanitize/angular-sanitize.js:476-520 | for nested events without self-closed special tags the writer ignores exactly inside a special element, and the tags open in its output are the valid open elements |
| `HtmlWriter.OutputIsWellNested` | dropwizard/src/main/resources/assets/lib/angular-sanitize/angular-sanitize.js:476-520 | main result: then the written tags nest and close |
| `HtmlWriter.UnarySpecialExact` | dropwizard/src/main/resources/assets/lib/angular-sanitize/angular-sanitize.js:480-513 | after a self-closed special tag whose name is not closed later nothing more is written, so the output closes exactly if no written element was open there |
| `HtmlWriter.DroppedForGood` | dropwizard/src/main/resources/assets/lib/angular-sanitize/angular-sanitize.js:480-513 | the same whatever was dropped before: such a tag ends the output |
| `HtmlWriter.DroppedBetweenExact` | dropwizard/src/main/resources/assets/lib/angular-sanitize/angular-sanitize.js:480-513 | if the name of the self-closed special tag is closed later, what lies between is dropped, and the output closes if and only if the same written elements are open before and after it |
| `HtmlWriter.ResumeExact` | dropwizard/src/main/resources/assets/lib/angular-sanitize/angular-sanitize.js:480-513 | after any number of such drops: once no dropped span is open and no self-closed special tag follows, the output closes if and only if the valid elements left open by the events outside the spans are the written ones of the open elements |
| `HtmlWriter.WrittenIsOutside` | dropwizard/src/main/resources/assets/lib/angular-sanitize/angular-sanitize.js:480-518 | the tags open in the output are the valid elements left open by the events outside the dropped spans |
| `HtmlWriter.OutputIsOutside` | dropwizard/src/main/resources/assets/lib/angular-sanitize/angular-sanitize.js:476-520 | main result: what is written is exactly the text and the valid tags of the events outside the dropped spans, each at its place |
| `HtmlWriter.OutputIsUnhidden` | dropwizard/src/main/resources/assets/lib/angular-sanitize/angular-sanitize.js:476-520 | main result: for nested events without self-closed special tags what is written is exactly the text and the valid tags reported while no special element is open, each at its place |
| `HtmlEvents.TagsInjective` | dropwizard/src/main/resources/assets/lib/angular-sanitize/angular-sanitize.js:486-513 | a word of output tags never leads from two different open stacks to the same one |
| `HtmlWriter.UnarySpecialBreaksNesting` | dropwizard/src/main/resources/assets/lib/angular-sanitize/angular-sanitize.js:480-513 | an instance: an open element before such a tag stays open in the output |
| `HtmlParser.Sanitize` | dropwizard/src/main/resources/assets/lib/angular-sanitize/angular-sanitize.js:153-159 | the whole sanitizer: what is written is the writer on the events of the run; they nest, and close unless the input is refused, and so do the written tags when no special tag is self-closed |
| `HtmlTables.InheritedNameIsUnarySpecial` | dropwizard/src/main/resources/assets/lib/angular-sanitize/angular-sanitize.js:262-266 | the inherited name `constructor` passes every truthiness test, so its tag is void and special at once |
| `EncodeEntities.EncodeIsEncodeOnce` | dropwizard/src/main/resources/assets/lib/angular-sanitize/angular-sanitize.js:451-464 | main result: the five passes are one pass over code points |
| `EncodeEntities.OutputIsSafe` | dropwizard/src/main/resources/assets/lib/angular-sanitize/angular-sanitize.js:451-464 | the output has no `<`, `>`, `"` and no character outside printable ASCII |
| `EncodeEntities.DecodeEncode` | dropwizard/src/main/resources/assets/lib/angular-sanitize/angular-sanitize.js:451-464 | main result: a decoder undoes the encoding of every text, lone surrogates included |
| `EncodeEntities.EncodeInjective` | dropwizard/src/main/resources/assets/lib/angular-sanitize/angular-sanitize.js:451-464 | no two texts are encoded the same |
| `EncodeEntities.EncodeStays` | dropwizard/src/main/resources/assets/lib/angular-sanitize/angular-sanitize.js:183 | a text stays as it is exactly if it has only printable ASCII, the space among it, without `&`, `<`, `>` and `"`; any other gets longer |
| `EncodeEntities.NamedEntities` | dropwizard/src/main/resources/assets/lib/angular-sanitize/angular-sanitize.js:453-464 | `&`, `<` and `>` become their named entities |
| `EncodeEntities.Utf16OfCodePoint` | dropwizard/src/main/resources/assets/lib/angular-sanitize/angular-sanitize.js:454-458 | the surrogate arithmetic is inverted as in section 2.2 of RFC 2781 |
| `Clip.ClipBoxExact` | dropwizard/src/main/resources/assets/js/flot/jquery.flot.js:2168-2223 | main result: the four clips leave exactly the part of the segment inside the box, in its direction, and nothing exactly when it misses the box |
| `Clip.ClippedIsIntersection` | dropwizard/src/main/resources/assets/js/flot/jquery.flot.js:2168-2223 | in terms of points: what is left of a segment is its intersection with the box |
| `Clip.ClipMinExact` | dropwizard/src/main/resources/assets/js/flot/jquery.flot.js:2168-2181 | one lower clip leaves exactly the points at or above the bound |
| `Clip.ClipMaxExact` | dropwizard/src/main/resources/assets/js/flot/jquery.flot.js:2183-2195 | one upper clip leaves exactly the points at or below the bound |
| `Clip.ClipWithMin` | dropwizard/src/main/resources/assets/js/flot/jquery.flot.js:2168-2181 | the block of assignments computes that clip, with no division by zero |
| `Clip.ClipWithMax` | dropwizard/src/main/resources/assets/js/flot/jquery.flot.js:2183-2195 | the block of assignments computes that clip, with no division by zero |
| `Clip.ClipSegment` | dropwizard/src/main/resources/assets/js/flot/jquery.flot.js:2168-2223 | the four blocks in a row compute the clip against the box |
| `Clip.DrawLine` | dropwizard/src/main/resources/assets/js/flot/jquery.flot.js:2225-2230 | whether or not the pen is moved first, the canvas gains exactly the line |
| `Clip.PlotLine` | dropwizard/src/main/resources/assets/js/flot/jquery.flot.js:2161-2231 | the whole loop draws exactly the visible part of every segment between neighbouring points, in order |
| `Threshold.SamplesInOrder` | dropwizard/src/main/resources/assets/js/flot/jquery.flot.threshold.js:69-101 | each list holds exactly the samples of its side, in order |
| `Threshold.CrossingOnSegment` | dropwizard/src/main/resources/assets/js/flot/jquery.flot.threshold.js:79-83 | an inserted crossing lies on the level and on its segment |
| `Threshold.ListDrawsItsPieces` | dropwizard/src/main/resources/assets/js/flot/jquery.flot.threshold.js:69-101 | what a list draws of a gap-free line series is exactly its pieces of the series |
| `Threshold.SplitDrawsPieces` | dropwizard/src/main/resources/assets/js/flot/jquery.flot.threshold.js:69-101 | main result: the same for the finished lists |
| `Threshold.PieceOnItsSide` | dropwizard/src/main/resources/assets/js/flot/jquery.flot.threshold.js:74-95 | a piece below nowhere rises above the level, a piece above nowhere falls below it |
| `Threshold.PiecesTraceSegment` | dropwizard/src/main/resources/assets/js/flot/jquery.flot.threshold.js:79-95 | the pieces of both lists between two samples are together exactly the segment between them |
| `Threshold.GapIsBridged` | dropwizard/src/main/resources/assets/js/flot/jquery.flot.threshold.js:69-101 | for a series with any gaps a list draws exactly its pieces if and only if no sample bridges a gap: a point of the side right after a gap, with a point of the side before it and only gaps of the other side between the two |
| `Threshold.NullGapIsBridged` | dropwizard/src/main/resources/assets/js/flot/jquery.flot.threshold.js:74-80 | gaps have height 0 here: a list draws exactly its pieces if and only if height 0 is on its side or no point of the side directly follows a gap with another point of the side somewhere before |
| `Threshold.ListDrawsPiecesAndBridges` | dropwizard/src/main/resources/assets/js/flot/jquery.flot.threshold.js:69-101 | what a list draws is its pieces and one line more for every bridge |
| `Threshold.BridgeInstance` | dropwizard/src/main/resources/assets/js/flot/jquery.flot.threshold.js:74-80 | an instance: two points above level 1 with a gap between them |
| `Thresholds.ChainIsExact` | dropwizard/src/main/resources/assets/js/flot/jquery.flot.threshold.js:115-131 | main result for an array of thresholds: splitting a series without gaps level after level draws exactly its pieces every time if and only if it never dips below a level and comes back where the next level is at most 0, or is the same again and above 0 |
| `Thresholds.SettledExact` | dropwizard/src/main/resources/assets/js/flot/jquery.flot.threshold.js:69-101 | the same for one further split of a list that was split before |
| `Thresholds.SplitKeeps` | dropwizard/src/main/resources/assets/js/flot/jquery.flot.threshold.js:69-101 | the upper list is at its level next to every gap, and dips below higher levels just where the series does |
| `Thresholds.DipInstance` | dropwizard/src/main/resources/assets/js/flot/jquery.flot.threshold.js:115-131 | an instance: levels -5 and -1 and a dip to -6 |
| `Thresholds.ProcessThresholds` | dropwizard/src/main/resources/assets/js/flot/jquery.flot.threshold.js:115-131 | the loop over the levels: what is left of the series, and the series that are inserted after it, in their order |
| `Threshold.SplitSample` | dropwizard/src/main/resources/assets/js/flot/jquery.flot.threshold.js:70-100 | one round appends to both lists what the split says |
| `Threshold.ThresholdData` | dropwizard/src/main/resources/assets/js/flot/jquery.flot.threshold.js:62-104 | the loop on the flat array computes both lists, with no division by zero |
| `TextCanvas.Canvas.GetTextInfo` | dropwizard/src/main/resources/assets/js/flot/jquery.flot.js:323-366 | finds the entry of a text or makes one with a fresh element; a text named like an inherited property finds that instead; what is asked for and shown stays |
| `TextCanvas.Canvas.AddText` | dropwizard/src/main/resources/assets/js/flot/jquery.flot.js:388-439 | throws exactly for a text named like an inherited property, and then nothing changes; otherwise the placement asked for is moved back by the extent as first measured, and nothing on the page changes yet |
| `TextCache.ShiftAligns` | dropwizard/src/main/resources/assets/js/flot/jquery.flot.js:391-404 | a text moved back starts, has its middle, or ends where it was asked for, as its alignment says |
| `TextCanvas.Canvas.RemoveText` | dropwizard/src/main/resources/assets/js/flot/jquery.flot.js:479-486 | throws exactly for such a text; otherwise exactly the placement at the given coordinates is taken back |
| `TextCanvas.Canvas.RemoveLayer` | dropwizard/src/main/resources/assets/js/flot/jquery.flot.js:462-478 | exactly the placements of the layer are taken back |
| `TextCanvas.Canvas.Render` | dropwizard/src/main/resources/assets/js/flot/jquery.flot.js:167-215 | main result: afterwards exactly one element is attached per placement asked for, and an entry is left exactly for each text in use |
| `TextCache.PageIsWanted` | dropwizard/src/main/resources/assets/js/flot/jquery.flot.js:167-215 | when every entry is settled, placements and attached elements are in one-to-one correspondence |
| `TextCache.EntryRendered` | dropwizard/src/main/resources/assets/js/flot/jquery.flot.js:188-206 | rendering one entry keeps positions and elements distinct and touches no other entry's elements |
| `TextCache.RenderPositions` | dropwizard/src/main/resources/assets/js/flot/jquery.flot.js:190-202 | the splicing loop keeps exactly the active positions and attaches and detaches accordingly |
| `TextCache.Activate` | dropwizard/src/main/resources/assets/js/flot/jquery.flot.js:410-415 | marks the one position at the place, if there is one |
| `TextCache.Deactivate` | dropwizard/src/main/resources/assets/js/flot/jquery.flot.js:469-485 | makes every position at the place, or every position, inactive |
| `TextCanvas.AddedKeeps` | dropwizard/src/main/resources/assets/js/flot/jquery.flot.js:410-433 | asking for a text keeps the cache in order and adds just its placement, whether a position is revived or a copy made |
| `TextCanvas.AddThenRemove` | dropwizard/src/main/resources/assets/js/flot/jquery.flot.js:388-404 | what is asked for afterwards is what was before, with the place after alignment and without the place given; it is the same as before exactly if nothing was at the given place and the text is put there or was already asked for where it is put |
| `Matrix.MatrixMultiply` | dropwizard/src/main/resources/assets/js/flot/excanvas.js:222-237 | the three loops compute the product |
| `Matrix.ProductActs` | dropwizard/src/main/resources/assets/js/flot/excanvas.js:1112-1118 | the left factor of a product acts on a point first |
| `Matrix.IdentityCopies` | dropwizard/src/main/resources/assets/js/flot/excanvas.js:1125 | the product `save` makes is a copy of the matrix |
| `Matrix.DetProduct` | dropwizard/src/main/resources/assets/js/flot/excanvas.js:1152 | area factors multiply |
| `CanvasContext.RunMeans` | dropwizard/src/main/resources/assets/js/flot/excanvas.js:1120-1210 | after every run the current matrix and each saved one do to every point what the transforms surviving there do, newest first |
| `CanvasContext.Context.GetCoords` | dropwizard/src/main/resources/assets/js/flot/excanvas.js:1112-1118 | main result: the coordinates are the point moved by the surviving transforms, newest first, then scaled by ten and shifted |
| `CanvasContext.BalancedBlock` | dropwizard/src/main/resources/assets/js/flot/excanvas.js:1120-1133 | a balanced block between save and restore leaves matrix, drawing state and stacks exactly as they were |
| `CanvasContext.StacksKept` | dropwizard/src/main/resources/assets/js/flot/excanvas.js:1120-1133 | a block that stays above its start leaves everything saved before it alone |
| `CanvasContext.RestoreAtBottom` | dropwizard/src/main/resources/assets/js/flot/excanvas.js:1128-1133 | restore with nothing saved changes nothing |
| `CanvasContext.LineScaleFollows` | dropwizard/src/main/resources/assets/js/flot/excanvas.js:1141-1155 | the line scale always is the square root of the current area factor, although translate and rotate do not recompute it and restore brings both back separately |
| `CanvasDrawing.DrawingFollows` | dropwizard/src/main/resources/assets/js/flot/excanvas.js:1120-1210 | main result: after every run the arc scales are the products of the scalings in force, the style is the last one in force, and the same is saved for every open save |
| `CanvasContext.Context.Shift` | dropwizard/src/main/resources/assets/js/flot/excanvas.js:1157-1165 | translate |
| `CanvasContext.Context.Turn` | dropwizard/src/main/resources/assets/js/flot/excanvas.js:1167-1178 | rotate, for any cosine and sine of one angle |
| `CanvasContext.Context.Stretch` | dropwizard/src/main/resources/assets/js/flot/excanvas.js:1180-1190 | scale, with the arc scales |
| `CanvasContext.Context.Apply` | dropwizard/src/main/resources/assets/js/flot/excanvas.js:1192-1200 | transform |
| `CanvasContext.Context.Replace` | dropwizard/src/main/resources/assets/js/flot/excanvas.js:1202-1210 | setTransform |
| `CanvasContext.Context.Push` | dropwizard/src/main/resources/assets/js/flot/excanvas.js:1120-1126 | save |
| `CanvasContext.Context.Pop` | dropwizard/src/main/resources/assets/js/flot/excanvas.js:1128-1133 | restore |
| `Navigate.ZoomMeaning` | dropwizard/src/main/resources/assets/js/flot/jquery.flot.navigate.js:221-247 | on either kind of axis a zoom divides all distances from the data value under the centre by the amount |
| `Navigate.ZoomEnds` | dropwizard/src/main/resources/assets/js/flot/jquery.flot.navigate.js:249-268 | a zoom ends at the window about the centre with its ends moved inside the pan range, exactly if zooming is on and the zoom range allows that width; else the window stays |
| `Navigate.CentreStays` | dropwizard/src/main/resources/assets/js/flot/jquery.flot.navigate.js:208-247 | what lies under the centre stays there |
| `Navigate.ZoomThenOut` | dropwizard/src/main/resources/assets/js/flot/jquery.flot.navigate.js:197-269 | with no ranges set, zoom and zoomOut about one pixel give the window back exactly |
| `Navigate.PanMeaning` | dropwizard/src/main/resources/assets/js/flot/jquery.flot.navigate.js:278-317 | panning keeps the width; it ends inside the pan range exactly if the window fits there; unhindered it is the shift by the pixels' data distance |
| `Navigate.PanEnds` | dropwizard/src/main/resources/assets/js/flot/jquery.flot.navigate.js:287-317 | a window pushed over the low end of its range ends there; one pushed over the high end, or over the low end when it is too wide to fit, ends at the high end; any other moves as asked |
| `Navigate.PanShifts` | dropwizard/src/main/resources/assets/js/flot/jquery.flot.js:1318-1344 | pixel and data coordinates are inverse up to the shift |
| `Navigate.RunStaysInRanges` | dropwizard/src/main/resources/assets/js/flot/jquery.flot.navigate.js:208-317 | main result: over every sequence of zooms and pans a window that starts in its ranges stays in them |
| `Navigate.ZoomInvertsIf` | dropwizard/src/main/resources/assets/js/flot/jquery.flot.navigate.js:249-268 | a zoom turns the window inside out exactly if what it zooms to misses the pan range, zooming is not switched off, and the zoom range allows the width that comes out |
| `Navigate.ZoomInstance` | dropwizard/src/main/resources/assets/js/flot/jquery.flot.navigate.js:249-268 | an instance: a window right of its pan range |
| `Navigate.Axis.Zoom` | dropwizard/src/main/resources/assets/js/flot/jquery.flot.navigate.js:229-269 | the assignments compute the zoomed window |
| `Navigate.Axis.ZoomOut` | dropwizard/src/main/resources/assets/js/flot/jquery.flot.navigate.js:197-206 | a zoom by the reciprocal |
| `Navigate.Axis.Pan` | dropwizard/src/main/resources/assets/js/flot/jquery.flot.navigate.js:287-317 | the assignments compute the panned window |
| `RouteText.Interpolate` | dropwizard/src/main/resources/assets/lib/angular-route/angular-route.js:648-662 | the loop fills the text part by part and takes used parameters out; a part without a word is an error |
| `RouteText.SwitchRouteMatcher` | dropwizard/src/main/resources/assets/lib/angular-route/angular-route.js:517-536 | collects the nonempty captures under their keys |
| `RouteText.CapturePerKey` | dropwizard/src/main/resources/assets/lib/angular-route/angular-route.js:199-227 | every match of a pattern has one capture per key |
| `RouteParts.FillLast` | dropwizard/src/main/resources/assets/lib/angular-route/angular-route.js:648-662 | the parts are filled in one after another: a key gets what the parts before it have left of the parameters, and uses it up |
| `RouteParts.FillLeaves` | dropwizard/src/main/resources/assets/lib/angular-route/angular-route.js:654-658 | exactly what the keys of the parts name is used up |
| `RouteParts.CollectedMeaning` | dropwizard/src/main/resources/assets/lib/angular-route/angular-route.js:526-534 | a parameter has a value exactly if that is the last nonempty capture of its name |
| `RouteMarks.MarksFillAlike` | dropwizard/src/main/resources/assets/lib/angular-route/angular-route.js:648-662 | a template is filled as if its keys had no marks |
| `RouteMarks.KeyMatches` | dropwizard/src/main/resources/assets/lib/angular-route/angular-route.js:199-227 | a plain key matches one part that is not empty, an optional one also nothing or an empty part, a star the rest of the line with its slashes |
| `Routes.FillsTemplate` | dropwizard/src/main/resources/assets/lib/angular-route/angular-route.js:648-662 | a template of words and distinct keys is filled at each key, and exactly its keys leave the map |
| `Routes.TokensOfTemplate` | dropwizard/src/main/resources/assets/lib/angular-route/angular-route.js:199-227 | the pattern of such a template is its words, slashes and keys |
| `Routes.MatchesOnlyValues` | dropwizard/src/main/resources/assets/lib/angular-route/angular-route.js:517-536 | the filled path matches in exactly one way, with the values filled in |
| `Routes.CapturedIffSupplied` | dropwizard/src/main/resources/assets/lib/angular-route/angular-route.js:517-536 | the values filled in come back exactly if none is missing, empty or has a slash |
| `Routes.RoundTrip` | dropwizard/src/main/resources/assets/lib/angular-route/angular-route.js:648-662 | main result: matching the filled path yields the template's parameters, and with the query they are the original set |
| `Routes.UpdateParams` | dropwizard/src/main/resources/assets/lib/angular-route/angular-route.js:487-496 | path and query come from the current parameters overridden by the new ones |
| `Routes.UpdateThenParse` | dropwizard/src/main/resources/assets/lib/angular-route/angular-route.js:487-496 | after updateParams the parsed route has the current parameters overridden by the new ones |
| `MenuBuilder.CreateMenuTree` | documentation/src/main/java/ru/taskurotta/documentation/Generator.java:110-130 | in place: the children lists come to be exactly the forest of the list; the recursion ends |
| `MenuBuilder.AddTop` | documentation/src/main/java/ru/taskurotta/documentation/Generator.java:116-123 | a top item closes the group waiting under the one before it |
| `MenuBuilder.CreateMenu` | documentation/src/main/java/ru/taskurotta/documentation/Generator.java:49-65 | the whole menu; an empty list fails at its missing first item |
| `MenuTree.MenuItem.constructor` | documentation/src/main/java/ru/taskurotta/documentation/MenuItem.java:21-25 | a fresh item has no children |
| `MenuTree.PreorderIsReturning` | documentation/src/main/java/ru/taskurotta/documentation/Generator.java:110-130 | main result: read top to bottom the menu is the list without the items after which some open group is left by more than one step or never, depths being read off the list in one pass |
| `MenuTree.NothingLost` | documentation/src/main/java/ru/taskurotta/documentation/Generator.java:110-130 | no item is lost exactly if depths fall one at a time and end at the top |
| `MenuTree.LostInstance` | documentation/src/main/java/ru/taskurotta/documentation/Generator.java:110-130 | an instance: a section under the last chapter |
| `MenuTree.EachOnce` | documentation/src/main/java/ru/taskurotta/documentation/Generator.java:110-130 | no item occurs twice |
| `MenuTree.SiblingsShareLevel` | documentation/src/main/java/ru/taskurotta/documentation/Generator.java:111-125 | siblings share one level, different from their parent's |
| `MenuBuilder.FrontOfTop` | documentation/src/main/java/ru/taskurotta/documentation/Generator.java:116-123 | what one more top item makes of the forest |
| `Categories.TransformPoints` | dropwizard/src/main/resources/assets/js/flot/jquery.flot.categories.js:146-172 | texts and numbers of the axis become codes in place; new names get consecutive codes from the next free index on, in the order in which they first occur; codes given before keep their meaning and distinct codes stay distinct |
| `Categories.TransformAll` | dropwizard/src/main/resources/assets/js/flot/jquery.flot.categories.js:120-144 | over all series of an axis every index reads back under the one final map |
| `Categories.ReadBack` | dropwizard/src/main/resources/assets/js/flot/jquery.flot.categories.js:158-170 | a cell gets an index exactly if its name had a code before the call or is not that of an inherited property, and the index stands for exactly that name |
| `Categories.InheritedInstance` | dropwizard/src/main/resources/assets/js/flot/jquery.flot.categories.js:158-170 | an instance: the label `constructor` |
| `Categories.GetNextNumber` | dropwizard/src/main/resources/assets/js/flot/jquery.flot.categories.js:97-105 | above every code, and no larger than needed |
| `Categories.Encode` | dropwizard/src/main/resources/assets/js/flot/jquery.flot.categories.js:164-169 | a new name takes the next index, a known one its own, an inherited one none |
| `AnnotatedClass.FindIsComplete` | core/src/main/java/ru/taskurotta/util/AnnotationUtils.java:28-56 | main result: the search ends although annotations may refer to each other in circles, fails exactly if no class it can reach carries the annotation, and what it finds is reached and carries it |
| `AnnotatedClass.FindIsFirst` | core/src/main/java/ru/taskurotta/util/AnnotationUtils.java:32-55 | what is found is the first carrier in the order of the search |
| `AnnotatedClass.ReachedIsInOrder` | core/src/main/java/ru/taskurotta/util/AnnotationUtils.java:36-55 | every reachable class is looked at |
| `AnnotatedClass.SuccessorsAreEdges` | core/src/main/java/ru/taskurotta/util/AnnotationUtils.java:36-55 | from a class the search goes on to its interfaces, then, if it is no annotation, to its annotations, then to its superclass unless that is the top class, and to nothing else |

## Left out

- StackPoints: stacking is vertical; horizontal bars, which swap the two coordinates, are left out.
- StackData: vertical stacking only, as StackPoints.
- StackAllSeries: vertical stacking only, as StackPoints.
- FindMatchingSeries: keys are numbers, no key is `None`; the loose equality of a number with a text is left out.
- FindBottomSeries: a reference is a text, a whole number or undefined; a fractional number, which finds nothing, is left out.
- HollowSteps: is for lines that come out of a gap further right than they went into it; where an x is repeated across a gap, a point at it can be left out and the fault with it.
- StackedBars: is for a series without a repeated x on any sorted series.
- SeriesShowsGroup: is for groups of lines that are not drawn in steps; for those `LineSteps` states the rule, not a sum.
- Floating-point rounding, NaN, infinities and the overflow of Java's integers.
- WriteWithCommandProtocol: the list of write-concern errors is not modelled, as a command reports one for a whole message, so that their number depends on how messages are cut.
- ExecuteWriteProtocol: leaves the list of write-concern errors out for the same reason.
- ExecuteOrdered: leaves the list of write-concern errors out for the same reason.
- ExecuteUnordered: leaves the list of write-concern errors out for the same reason.
- Unacknowledged writes, and the split of a count into inserted, matched, modified and removed documents.
- ExecuteRun: does not model the checks of update documents or the choice of a protocol by server version; the choice is a parameter.
- Connections, BSON, tracing, loggers and the tailable and parallel-scan variants of cursors.
- QueryResultIterator: does not model failed kills and dead cursors, query-failure flags, `setBatchSize` between batches, or the finalizer.
- HeartbeatSafety: a polling serialization error names a task that was never executed and touches no timeout, so it is a poll that yields nothing; sleeping, profiling and stopping threads are left out.
- OutputIsWellNested: its condition is sufficient; `UnarySpecialExact`, `DroppedBetweenExact` and `ResumeExact` give the exact ones when a special tag is self-closed.
- SanitizeWriter.Start: does not model the attributes of written tags and the checks of their names and URIs; the text of an attribute is carried along unread.
- Sanitize: leaves out the attributes of written tags, as SanitizeWriter.Start does; the lexer is a parameter.
- `decodeEntities`, which asks the browser, is a parameter.
- SplitDrawsPieces: is for gap-free series, as the code joins points across gaps in one list; `GapIsBridged` says exactly when for every series.
- ChainIsExact: is for series that have no gaps at the start; for a series with gaps `GapIsBridged` says when one split is exact.
- ProcessThresholds: is given the levels in the order they are sorted into; the sort itself is left out.
- MatrixMultiply: matrices are values, since the code never changes one after it is made; a product is a new one.
- GetCoords: curves and arcs of excanvas, its check for finite matrices, the square root of the line scale and the current path are left out.
- AddText: rotation, wrapping widths and fonts are left out; a text's extent is a parameter that counts when it is first measured. For a layer or style named like an inherited property the model says only that the canvas stays as it is.
- TransformPoints: cells of the axis are texts, numbers or null.
- Other transforms than the identity in `Navigate`, the widening of empty ranges and the ticks.
- Matches: of the operators a template may contain only the escaped characters are literal as in the code; other special characters are taken as themselves, and letter case is not ignored.
- A route's `redirectTo`, events, and the choice among several routes.
- MenuItem: `level` is a number given from outside; how it is counted from a line, captions and the JSON output are left out.
- `GeneralRuntimeProcessor`, `RuntimeContext`, retry policies, thread pools, configuration and the web interface: plumbing, or only easy claims.
- The tick generator, bars, points, shadows and highlighting of the plot library.
