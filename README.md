# Anti-pattern detectors, modelled in Dafny

This project models four detectors of the AntiPatternDetectionApp. Each
detector reads the result sets of its queries about one project and returns
a `QueryResultItem`: the anti-pattern, a detected flag, and an ordered list
of `ResultDetail` (name, value) pairs as evidence.

- **Too Long Sprint** (`too_long_sprint.dfy`, module `TooLongSprint`). Counts
  the iterations whose length exceeds `maxIterationLength` (default 21 days).
  It detects when more than `maxNumberOfTooLongIterations` (default 0) are too long.
- **Varying Sprint Length** (`varying_sprint_length.dfy`, module
  `VaryingSprintLength`). Walks the iteration lengths of a forward-only cursor
  pairwise. It counts the pairs whose lengths differ by at least
  `maxDaysDifference` (default 7), and detects when the count exceeds
  `maxIterationChanged` (default 1). A failure while reading the cursor is
  reported as a detection.
- **Ninety-Ninety Rule** (`ninety_ninety_rule.dfy`, module
  `NinetyNinetyRule`). Flattens the non-null spent/estimated ratios of all
  result sets. When every ratio is within `maxDivisionRange` (default 1.25),
  nothing is detected. Otherwise it detects on more than
  `maxBadDivisionLimit` (default 2) consecutive over-range ratios.
- **Long Or Non-Existent Feedback Loops** (`feedback_loops.dfy`, module
  `FeedbackLoops`). Extracts seven facts from seven result sets by position.
  It then takes the first matching branch:
  - A: every iteration has a feedback activity.
  - B: enough dated feedback activities; their spacing is checked.
  - C1: every iteration has a feedback wiki page.
  - C2: the wiki pages' spacing is checked.

  A spacing check walks the project start followed by the dates. It detects
  at the first gap of at least `maxGapBetweenFeedbackLoopRate` (default 2)
  times the average iteration length.

`common.dfy` (module `Common`) holds the shared pieces:
- dynamically typed rows (`map<string, Value>`, where a missing key reads as null);
- the result datatypes;
- Java's decimal rendering of numbers, with its round trip;
- the Java number semantics the detectors rely on: `int` wrap-around, `Math.abs`
  of `Integer.MIN_VALUE`, `BigDecimal` truncation, and day differences.

Each detector is a class. Its thresholds are fields, set to the defaults by
the constructor. `Analyze` is a method with the source's loops. Each method
is proved against a specification function, and the properties of that
function are proved as lemmas.

The model follows the code, including where it departs from its own comments
or from what one might expect:
- The Javadoc of `VaryingSprintLengthDetectorImpl.analyze` (lines 62-76) says a
  change is a difference of more than 7 days and that detection needs more
  than 2 changes. The code counts a change at `>=` `maxDaysDifference` and
  detects when the count exceeds `maxIterationChanged`, whose default is 1.
- The feedback-loop wiki count is the row count of the seventh result set.
- Null dates are kept in the feedback date lists rather than skipped.
- A length equal to `Integer.MIN_VALUE` re-seeds the Varying Sprint Length walk.

## Model

| member | source | states |
|---|---|---|
| Common.IntToString | src/main/java/cz/zcu/fav/kiv/antipatterndetectionapp/detecting/detectors/TooLongSprintDetectorImpl.java:98-99 | the rendering is never empty and starts with '-' exactly for negative numbers |
| Common.IntToStringRoundTrip | src/main/java/cz/zcu/fav/kiv/antipatterndetectionapp/detecting/detectors/TooLongSprintDetectorImpl.java:98-99 | parsing the rendering of any integer gives the integer back, so evidence values determine the counts they report |
| Common.IntToStringInjective | src/main/java/cz/zcu/fav/kiv/antipatterndetectionapp/detecting/detectors/VaryingSprintLengthDetectorImpl.java:113-115 | distinct numbers are rendered as distinct evidence values |
| Common.NatToStringRoundTrip | src/main/java/cz/zcu/fav/kiv/antipatterndetectionapp/detecting/detectors/TooLongSprintDetectorImpl.java:98 | the digits of a natural number read back to that number |
| Common.Wrap32 | src/main/java/cz/zcu/fav/kiv/antipatterndetectionapp/detecting/detectors/VaryingSprintLengthDetectorImpl.java:100 | the result is a Java int congruent to the input modulo 2^32, and equal to it when the input already is an int |
| Common.JavaAbs | src/main/java/cz/zcu/fav/kiv/antipatterndetectionapp/detecting/detectors/VaryingSprintLengthDetectorImpl.java:100 | Math.abs: non-negative and equal to x or -x, except that Integer.MIN_VALUE maps to itself |
| Common.TruncateToInt | src/main/java/cz/zcu/fav/kiv/antipatterndetectionapp/detecting/detectors/LongOrNonExistentFeedbackLoopsDetectorImpl.java:103 | the fraction is dropped toward zero: the result lies within one of the input, on the zero side |
| TooLongSprint.TooLongCount | src/main/java/cz/zcu/fav/kiv/antipatterndetectionapp/detecting/detectors/TooLongSprintDetectorImpl.java:88-96 | the number of too-long rows never exceeds the number of rows |
| TooLongSprint.TooLongCountIsCardinality | src/main/java/cz/zcu/fav/kiv/antipatterndetectionapp/detecting/detectors/TooLongSprintDetectorImpl.java:88-96 | the count equals the number of positions whose length is present and above the limit; rows without a length never contribute |
| TooLongSprint.TooLongCountOfLongFields | src/main/java/cz/zcu/fav/kiv/antipatterndetectionapp/detecting/detectors/TooLongSprintDetectorImpl.java:88-96 | the count equals the number of rows whose `iterationLength` field is a Long whose int value exceeds maxIterationLength |
| TooLongSprint.TooLongCountAppend | src/main/java/cz/zcu/fav/kiv/antipatterndetectionapp/detecting/detectors/TooLongSprintDetectorImpl.java:88-96 | the count of two result sets joined is the sum of their counts |
| TooLongSprint.TooLongCountPermutation | src/main/java/cz/zcu/fav/kiv/antipatterndetectionapp/detecting/detectors/TooLongSprintDetectorImpl.java:88-96 | reordering the rows does not change the count, so the verdict does not depend on row order |
| TooLongSprint.TooLongSprintDetector.constructor | src/main/java/cz/zcu/fav/kiv/antipatterndetectionapp/detecting/detectors/TooLongSprintDetectorImpl.java:17-33 | anti-pattern 1 "Too Long Sprint", defaults 21 days and 0 iterations |
| TooLongSprint.TooLongSprintDetector.Analyze | src/main/java/cz/zcu/fav/kiv/antipatterndetectionapp/detecting/detectors/TooLongSprintDetectorImpl.java:75-110 | only the first result set is read; detected iff the too-long count exceeds maxNumberOfTooLongIterations; the details are the row count, the too-long count and the matching conclusion, in that order |
| VaryingSprintLength.Lengths | src/main/java/cz/zcu/fav/kiv/antipatterndetectionapp/detecting/detectors/VaryingSprintLengthDetectorImpl.java:90-91 | one int length per cursor row, in order, with SQL NULL read as 0 |
| VaryingSprintLength.CursorLengths | src/main/java/cz/zcu/fav/kiv/antipatterndetectionapp/detecting/detectors/VaryingSprintLengthDetectorImpl.java:86-87 | a null cursor yields no lengths; every length is a Java int |
| VaryingSprintLength.Walk | src/main/java/cz/zcu/fav/kiv/antipatterndetectionapp/detecting/detectors/VaryingSprintLengthDetectorImpl.java:88-104 | the walk starts at the Integer.MIN_VALUE sentinel; afterwards the previous length is the last one read, and fewer changes are counted than lengths read |
| VaryingSprintLength.WalkCountsPairs | src/main/java/cz/zcu/fav/kiv/antipatterndetectionapp/detecting/detectors/VaryingSprintLengthDetectorImpl.java:88-104 | for lengths away from the int limits, the loop counts exactly the adjacent pairs whose lengths differ by at least maxDaysDifference |
| VaryingSprintLength.MinValueLengthReseeds | src/main/java/cz/zcu/fav/kiv/antipatterndetectionapp/detecting/detectors/VaryingSprintLengthDetectorImpl.java:93-95 | a length equal to Integer.MIN_VALUE is taken for "no previous length": on [14, MIN_VALUE, 30] one change is counted where two pairs differ |
| VaryingSprintLength.MinValueSkipsNextPair | src/main/java/cz/zcu/fav/kiv/antipatterndetectionapp/detecting/detectors/VaryingSprintLengthDetectorImpl.java:93-95 | at any position holding Integer.MIN_VALUE, reading the next length only re-seeds: that pair adds no change and the next length becomes the previous one |
| VaryingSprintLength.VaryingSprintLengthDetector.constructor | src/main/java/cz/zcu/fav/kiv/antipatterndetectionapp/detecting/detectors/VaryingSprintLengthDetectorImpl.java:18-33 | anti-pattern 2 "Varying Sprint Length", defaults 7 days and 1 change |
| VaryingSprintLength.VaryingSprintLengthDetector.Analyze | src/main/java/cz/zcu/fav/kiv/antipatterndetectionapp/detecting/detectors/VaryingSprintLengthDetectorImpl.java:78-128 | a read failure is a detection whose only detail is the failure text; otherwise detected iff the walk's change count exceeds maxIterationChanged, with the limit, row count, change count and conclusion as details; away from the int limits, detected iff more than maxIterationChanged adjacent pairs differ by at least maxDaysDifference |
| NinetyNinetyRule.RowRatios | src/main/java/cz/zcu/fav/kiv/antipatterndetectionapp/detecting/detectors/NinetyNinetyRuleDetectorImpl.java:79-90 | a result set yields at most one ratio per row |
| NinetyNinetyRule.RowRatiosKeepExactlyNonNull | src/main/java/cz/zcu/fav/kiv/antipatterndetectionapp/detecting/detectors/NinetyNinetyRuleDetectorImpl.java:80-85 | every kept ratio comes from a row holding it, and every non-null ratio is kept |
| NinetyNinetyRule.RowRatiosAppend | src/main/java/cz/zcu/fav/kiv/antipatterndetectionapp/detecting/detectors/NinetyNinetyRuleDetectorImpl.java:79-90 | the ratios of two row lists joined are the ratios of the first followed by those of the second |
| NinetyNinetyRule.RatiosOfFlatten | src/main/java/cz/zcu/fav/kiv/antipatterndetectionapp/detecting/detectors/NinetyNinetyRuleDetectorImpl.java:78-91 | the collected ratios are those of all rows of all result sets taken as one list: result-set boundaries carry no meaning |
| NinetyNinetyRule.AllInRangeAppend | src/main/java/cz/zcu/fav/kiv/antipatterndetectionapp/detecting/detectors/NinetyNinetyRuleDetectorImpl.java:86-89 | after one more ratio all are in range iff they were before and the new one is |
| NinetyNinetyRule.RunLength | src/main/java/cz/zcu/fav/kiv/antipatterndetectionapp/detecting/detectors/NinetyNinetyRuleDetectorImpl.java:99-105 | the counter never exceeds the number of ratios scanned |
| NinetyNinetyRule.RunLengthIsFinalRun | src/main/java/cz/zcu/fav/kiv/antipatterndetectionapp/detecting/detectors/NinetyNinetyRuleDetectorImpl.java:99-105 | the counter is the length of the maximal run of over-range ratios ending the scanned part |
| NinetyNinetyRule.TripsIffOverrunRun | src/main/java/cz/zcu/fav/kiv/antipatterndetectionapp/detecting/detectors/NinetyNinetyRuleDetectorImpl.java:99-113 | for a non-negative limit the scan returns early iff the ratios hold more than maxBadDivisionLimit consecutive over-range values |
| NinetyNinetyRule.AllInRangeNeverTrips | src/main/java/cz/zcu/fav/kiv/antipatterndetectionapp/detecting/detectors/NinetyNinetyRuleDetectorImpl.java:93-113 | when all ratios are in range, the scan would not trip either: the short-circuit agrees with the scan |
| NinetyNinetyRule.NinetyNinetyRuleDetector.constructor | src/main/java/cz/zcu/fav/kiv/antipatterndetectionapp/detecting/detectors/NinetyNinetyRuleDetectorImpl.java:14-29 | anti-pattern 7 "Ninety Ninety Rule", defaults 1.25 and 2 |
| NinetyNinetyRule.NinetyNinetyRuleDetector.CollectRatios | src/main/java/cz/zcu/fav/kiv/antipatterndetectionapp/detecting/detectors/NinetyNinetyRuleDetectorImpl.java:73-91 | the collected list is all non-null ratios in result-set then row order, and the flag is set iff all of them are within the range |
| NinetyNinetyRule.NinetyNinetyRuleDetector.ScanForOverrun | src/main/java/cz/zcu/fav/kiv/antipatterndetectionapp/detecting/detectors/NinetyNinetyRuleDetectorImpl.java:99-113 | the scan returns early iff at some point the consecutive-overrun counter exceeds the limit |
| NinetyNinetyRule.NinetyNinetyRuleDetector.Analyze | src/main/java/cz/zcu/fav/kiv/antipatterndetectionapp/detecting/detectors/NinetyNinetyRuleDetectorImpl.java:71-118 | exactly one "Conclusion" detail; all in range gives not detected; otherwise detected iff the scan trips, with the limit-based message or the no-trend message; for a non-negative limit, detected iff there is a run of more than maxBadDivisionLimit over-range ratios |
| FeedbackLoops.Extract | src/main/java/cz/zcu/fav/kiv/antipatterndetectionapp/detecting/detectors/LongOrNonExistentFeedbackLoopsDetectorImpl.java:95-134 | the wiki count equals the number of wiki dates; a missing or empty third result set leaves the activity count at 0 |
| FeedbackLoops.ExtractIgnoresExtraSets | src/main/java/cz/zcu/fav/kiv/antipatterndetectionapp/detecting/detectors/LongOrNonExistentFeedbackLoopsDetectorImpl.java:131-133 | result sets past the seventh do not change the extracted facts |
| FeedbackLoops.FirstLongGapSpec | src/main/java/cz/zcu/fav/kiv/antipatterndetectionapp/detecting/detectors/LongOrNonExistentFeedbackLoopsDetectorImpl.java:151-168 | the walk over [start] + dates stops iff some consecutive gap reaches the threshold, and it reports the first such gap; when it finds none it has read every date |
| FeedbackLoops.ReadsUpToFirstLongGap | src/main/java/cz/zcu/fav/kiv/antipatterndetectionapp/detecting/detectors/LongOrNonExistentFeedbackLoopsDetectorImpl.java:153-166 | the walk returns at the first long gap: whatever follows that gap, null dates included, the walk is defined and reports that gap |
| FeedbackLoops.NullAfterLongGapExample | src/main/java/cz/zcu/fav/kiv/antipatterndetectionapp/detecting/detectors/LongOrNonExistentFeedbackLoopsDetectorImpl.java:153-166 | from day 0, with an average length of 14 and rate 2.0, the dates [day 100, null] give the gap of 100 days without reading the null |
| FeedbackLoops.GapVerdictSpec | src/main/java/cz/zcu/fav/kiv/antipatterndetectionapp/detecting/detectors/LongOrNonExistentFeedbackLoopsDetectorImpl.java:151-176 | a spacing check detects iff some gap reaches the threshold, and then reports the first such gap as "Days between" |
| FeedbackLoops.ActivityIdealIgnoresDates | src/main/java/cz/zcu/fav/kiv/antipatterndetectionapp/detecting/detectors/LongOrNonExistentFeedbackLoopsDetectorImpl.java:139-146 | branch A is not detected, with three details, whatever the dates and the project start |
| FeedbackLoops.DetectedOnlyOnLongGap | src/main/java/cz/zcu/fav/kiv/antipatterndetectionapp/detecting/detectors/LongOrNonExistentFeedbackLoopsDetectorImpl.java:139-217 | detected only in branch B or C2, at the first gap reaching the threshold, reported as "Days between"; conversely such a gap in those branches always gives a detection |
| FeedbackLoops.NoDatesNoDetection | src/main/java/cz/zcu/fav/kiv/antipatterndetectionapp/detecting/detectors/LongOrNonExistentFeedbackLoopsDetectorImpl.java:192-216 | a spacing check over no dates, such as an empty wiki list in C2, never detects |
| FeedbackLoops.ProjectEndIrrelevant | src/main/java/cz/zcu/fav/kiv/antipatterndetectionapp/detecting/detectors/LongOrNonExistentFeedbackLoopsDetectorImpl.java:121 | the project end date is extracted but never changes the verdict |
| FeedbackLoops.LongOrNonExistentFeedbackLoopsDetector.constructor | src/main/java/cz/zcu/fav/kiv/antipatterndetectionapp/detecting/detectors/LongOrNonExistentFeedbackLoopsDetectorImpl.java:20-37 | anti-pattern 6 "Long Or Non Existent Feedback Loops", defaults 0.5 and 2 |
| FeedbackLoops.LongOrNonExistentFeedbackLoopsDetector.GapWalk | src/main/java/cz/zcu/fav/kiv/antipatterndetectionapp/detecting/detectors/LongOrNonExistentFeedbackLoopsDetectorImpl.java:151-168 | the loop returns the first gap of the walk that reaches the threshold, or none; it needs only the dates it reads to be present, up to that gap |
| FeedbackLoops.LongOrNonExistentFeedbackLoopsDetector.ExtractFacts | src/main/java/cz/zcu/fav/kiv/antipatterndetectionapp/detecting/detectors/LongOrNonExistentFeedbackLoopsDetectorImpl.java:85-134 | the switch loop leaves exactly the positional facts of the result sets present |
| FeedbackLoops.LongOrNonExistentFeedbackLoopsDetector.SpacingCheck | src/main/java/cz/zcu/fav/kiv/antipatterndetectionapp/detecting/detectors/LongOrNonExistentFeedbackLoopsDetectorImpl.java:150-176 | the walk and its report equal the spacing-check verdict GapVerdict: detected exactly when some gap reaches the threshold, with the first such gap as "Days between" (GapVerdictSpec) |
| FeedbackLoops.LongOrNonExistentFeedbackLoopsDetector.Analyze | src/main/java/cz/zcu/fav/kiv/antipatterndetectionapp/detecting/detectors/LongOrNonExistentFeedbackLoopsDetectorImpl.java:82-218 | the result is the decision tree's verdict on the extracted facts: the first matching branch of A, B, C1 and C2, with its details |

## Left out

- Query execution, the SQL files and the JDBC cursor are outside the model. Result sets are sequences of rows. The Varying Sprint Length cursor is its rows followed by an optional read failure; a failure raised mid-cursor is the same cursor cut at that row.
- Logging is left out: it has no effect on the verdict.
- The configuration map, its descriptions and the anti-pattern descriptions are left out. Threshold getters are reads of the detector's fields, so `analyze` leaves the thresholds unchanged.
- `getAntiPatternModel`, `getAntiPatternSqlFileName` and `setSqlQueries` only return or store values and are not modelled.
- `float` and `double` thresholds and the products `total × division` and `rate × average length` are exact reals. Floating-point rounding is not modelled.
- Counters (`numberOfIterations`, `totalCountOfIteration` and the like) are unbounded, so `int` overflow of a counter is not modelled.
- VaryingSprintLength.WalkCountsPairs: the exact pair count is proved only for lengths strictly between -2^30 and 2^30. Outside that range, `Walk` itself, with wrap-around and the `Integer.MIN_VALUE` sentinel, is the specification.
- NinetyNinetyRule.TripsIffOverrunRun: holds only for a non-negative `maxBadDivisionLimit`. With a negative limit the first ratio already trips the scan.
- The Ninety-Ninety Rule `analyze` is modelled as `Analyze` calling two phase methods, `CollectRatios` and `ScanForOverrun`, which hold the source's two loops.
- `Utils.daysBetween` is not part of this model. Dates are whole day numbers, and `daysBetween(a, b)` is taken to be `b − a`.
- The dates a spacing walk reads must be present, because `daysBetween`'s handling of null is not part of this model. These are the project start, when there is a date, and every date up to and including the one that ends the first long gap. Dates after that gap are never read and may be null, as may the dates of lists that are not walked.
- `Utils.createResultDetailsList` is not part of this model. It is taken to list its arguments in order.
- `ClassCastException` and `NullPointerException` from the casts, and `get(0)` on an empty list, are schema mismatches. They are preconditions: the `WellTyped` predicates, and `|resultSets| > 0` on the Too Long Sprint `Analyze`, which guards `resultSets.get(0)`.
- `Int32Rows` states that the Varying Sprint Length column holds Java ints. What `rs.getInt` does with a value out of the int range depends on the JDBC driver; a driver that throws is a `Cursor` cut at that row with a read failure.
- `Long.toString`, `Integer.toString` and `String.valueOf` on integers are `IntToString`.
