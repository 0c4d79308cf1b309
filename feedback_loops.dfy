/**
 Long Or Non-Existent Feedback Loops: extracts seven facts positionally
 from seven result sets, then decides by the first matching branch:
 enough iterations with a feedback activity (not detected); else, enough
 dated feedback activities, whose spacing is checked; else enough
 iterations with a feedback wiki page (not detected); else the spacing of
 the wiki pages is checked. A spacing check detects the anti-pattern at
 the first gap of at least `maxGapBetweenFeedbackLoopRate` times the
 average iteration length.
 */
module FeedbackLoops {
  import opened Common

  const IterationsKey := "numberOfIterations"
  const AverageLengthKey := "averageIterationLength"
  const ActivityCountKey := "totalCountOfIterationsWithFeedbackActivity"
  const EndDateKey := "endDate"
  const StartDateKey := "startDate"
  const AppointmentDateKey := "appointmentDate"

  const ActivityIdealConclusion := "In each iteration is at least one activity that represents feedback loop"
  const WikiIdealConclusion := "In each iteration is created/edited at least one wiki page that represents feedback loop"
  const TooLongConclusion := "Customer feedback loop is too long"
  const GapsFineConclusion := "Customer feedback has been detected and there is not too much gap between them"

  /** The facts the decision uses, as the extraction loop leaves them. */
  datatype Facts = Facts(
    totalIterations: int,
    averageIterationLength: int,
    iterationsWithActivity: int,
    activityDates: seq<Option<int>>,
    projectStart: Option<int>,
    projectEnd: Option<int>,
    iterationsWithWikiPage: int,
    wikiDates: seq<Option<int>>)

  predicate FirstDateOrNull(rs: ResultSet, key: string) {
    |rs| > 0 && (Field(rs[0], key).Date? || Field(rs[0], key).Null?)
  }

  predicate AllDatesOrNull(rs: ResultSet, key: string) {
    forall i :: 0 <= i < |rs| ==> Field(rs[i], key).Date? || Field(rs[i], key).Null?
  }

  /** What the casts and `rs.get(0)` calls of the extraction accept, for the
      result sets that are present. */
  predicate WellTyped(resultSets: seq<ResultSet>) {
    && (|resultSets| > 0 ==> |resultSets[0]| > 0 && Field(resultSets[0][0], IterationsKey).Long?)
    && (|resultSets| > 1 ==> |resultSets[1]| > 0 && Field(resultSets[1][0], AverageLengthKey).Decimal?)
    && (|resultSets| > 2 && |resultSets[2]| > 0 ==> Field(resultSets[2][0], ActivityCountKey).Long?)
    && (|resultSets| > 3 ==> AllDatesOrNull(resultSets[3], EndDateKey))
    && (|resultSets| > 4 ==> FirstDateOrNull(resultSets[4], StartDateKey))
    && (|resultSets| > 5 ==> FirstDateOrNull(resultSets[5], EndDateKey))
    && (|resultSets| > 6 ==> AllDatesOrNull(resultSets[6], AppointmentDateKey))
  }

  /** The `(Date)` cast: a date, or null. */
  function DateOrNull(v: Value): (d: Option<int>)
    requires v.Date? || v.Null?
    ensures d.None? <==> v.Null?
    ensures d.Some? ==> v == Date(d.value)
  {
    if v.Date? then Some(v.day) else None
  }

  /** The dates of one column, nulls included, in row order. */
  function DateColumn(rs: ResultSet, key: string): (dates: seq<Option<int>>)
    requires AllDatesOrNull(rs, key)
    ensures |dates| == |rs|
    ensures forall i :: 0 <= i < |rs| ==> dates[i] == DateOrNull(Field(rs[i], key))
  {
    seq(|rs|, i requires 0 <= i < |rs| => DateOrNull(Field(rs[i], key)))
  }

  /** The facts, by position: set 0 the iteration count, set 1 the average
      length (`BigDecimal.intValue`), set 2 the activity count
      (`Long.intValue`, 0 when the set is empty), set 3 the
      activity dates, sets 4 and 5 the project dates, set 6 the wiki dates,
      whose row count is the wiki count. Missing sets leave the defaults. */
  function Extract(resultSets: seq<ResultSet>): (f: Facts)
    requires WellTyped(resultSets)
    ensures f.iterationsWithWikiPage == |f.wikiDates|
    ensures (|resultSets| <= 2 || |resultSets[2]| == 0) ==> f.iterationsWithActivity == 0
  {
    Facts(
      if |resultSets| > 0 then Field(resultSets[0][0], IterationsKey).n else 0,
      if |resultSets| > 1 then Wrap32(TruncateToInt(Field(resultSets[1][0], AverageLengthKey).d)) else 0,
      if |resultSets| > 2 && |resultSets[2]| > 0 then Wrap32(Field(resultSets[2][0], ActivityCountKey).n) else 0,
      if |resultSets| > 3 then DateColumn(resultSets[3], EndDateKey) else [],
      if |resultSets| > 4 then DateOrNull(Field(resultSets[4][0], StartDateKey)) else None,
      if |resultSets| > 5 then DateOrNull(Field(resultSets[5][0], EndDateKey)) else None,
      if |resultSets| > 6 then |resultSets[6]| else 0,
      if |resultSets| > 6 then DateColumn(resultSets[6], AppointmentDateKey) else [])
  }

  /** Result sets past the seventh are never read. */
  lemma ExtractIgnoresExtraSets(resultSets: seq<ResultSet>)
    requires WellTyped(resultSets) && |resultSets| > 7
    ensures WellTyped(resultSets[..7])
    ensures Extract(resultSets) == Extract(resultSets[..7])
  {
    var first := resultSets[..7];
    assert forall k :: 0 <= k < 7 ==> first[k] == resultSets[k];
  }

  datatype Branch = ActivityIdeal | ActivityGaps | WikiIdeal | WikiGaps

  /** The share of the iterations that must have a dated feedback activity
      for the activity spacing to be checked. */
  function HalfOfIterations(totalIterations: int, divisionOfIterationsWithFeedbackLoop: real): real {
    totalIterations as real * divisionOfIterationsWithFeedbackLoop
  }

  /** The first matching branch of the decision. */
  function SelectBranch(f: Facts, divisionOfIterationsWithFeedbackLoop: real): Branch {
    if f.totalIterations <= f.iterationsWithActivity then ActivityIdeal
    else if |f.activityDates| as real > HalfOfIterations(f.totalIterations, divisionOfIterationsWithFeedbackLoop) then ActivityGaps
    else if f.iterationsWithWikiPage >= f.totalIterations then WikiIdeal
    else WikiGaps
  }

  /** The longest tolerated gap, in days: `maxGapBetweenFeedbackLoopRate`
      times the average iteration length. */
  function GapThreshold(maxGapBetweenFeedbackLoopRate: real, averageIterationLength: int): real {
    maxGapBetweenFeedbackLoopRate * averageIterationLength as real
  }

  /** Every date the walk over [start] + dates reads is present: the start
      whenever there is a date, and each date up to and including the first
      one that ends a gap of at least `threshold`. The walk returns at that
      gap, so the dates after it are never read and may be null. */
  predicate Reached(start: Option<int>, dates: seq<Option<int>>, threshold: real)
    decreases |dates|
  {
    dates == [] ||
    (start.Some? && dates[0].Some? &&
     (DaysBetween(start.value, dates[0].value) as real >= threshold || Reached(dates[0], dates[1..], threshold)))
  }

  /** The first gap between consecutive points of [start] + dates that is at
      least `threshold`, if any. */
  function FirstLongGap(start: Option<int>, dates: seq<Option<int>>, threshold: real): Option<int>
    requires Reached(start, dates, threshold)
    decreases |dates|
  {
    if dates == [] then None
    else
      var gap := DaysBetween(start.value, dates[0].value);
      if gap as real >= threshold then Some(gap) else FirstLongGap(dates[0], dates[1..], threshold)
  }

  /** The gap ending at dates[i] has both of its end points. */
  predicate Measurable(dates: seq<Option<int>>, i: int) {
    0 <= i < |dates| && dates[i].Some? && (i > 0 ==> dates[i - 1].Some?)
  }

  /** The gap between consecutive points of [start] + dates that ends at dates[i]. */
  function GapAt(start: int, dates: seq<Option<int>>, i: int): int
    requires Measurable(dates, i)
  {
    DaysBetween(if i == 0 then start else dates[i - 1].value, dates[i].value)
  }

  /** The gap ending at dates[i] reaches the threshold. */
  predicate IsLongGap(start: int, dates: seq<Option<int>>, i: int, threshold: real) {
    Measurable(dates, i) && GapAt(start, dates, i) as real >= threshold
  }

  /** ... and it is the first gap that does, every date before it present. */
  predicate IsFirstLongGap(start: int, dates: seq<Option<int>>, i: int, threshold: real) {
    IsLongGap(start, dates, i, threshold)
    && forall j :: 0 <= j < i ==> dates[j].Some? && !IsLongGap(start, dates, j, threshold)
  }

  /** The walk stops at a gap exactly when some gap reaches the threshold,
      and the gap it reports is the first one that does; when it finds none,
      it has read every date. */
  lemma {:induction false} FirstLongGapSpec(start: int, dates: seq<Option<int>>, threshold: real)
    requires Reached(Some(start), dates, threshold)
    ensures FirstLongGap(Some(start), dates, threshold).Some? <==> exists i :: IsLongGap(start, dates, i, threshold)
    ensures FirstLongGap(Some(start), dates, threshold).Some? ==>
              exists i :: IsFirstLongGap(start, dates, i, threshold)
                && FirstLongGap(Some(start), dates, threshold).value == GapAt(start, dates, i)
    ensures FirstLongGap(Some(start), dates, threshold).None? ==> forall i :: 0 <= i < |dates| ==> dates[i].Some?
    decreases |dates|
  {
    if dates != [] {
      if IsLongGap(start, dates, 0, threshold) {
        assert IsFirstLongGap(start, dates, 0, threshold);
      } else {
        var rest := dates[1..];
        var next := dates[0].value;
        FirstLongGapSpec(next, rest, threshold);
        forall i | 0 <= i < |rest|
          ensures Measurable(rest, i) == Measurable(dates, i + 1)
          ensures IsLongGap(next, rest, i, threshold) == IsLongGap(start, dates, i + 1, threshold)
        {
        }
        if FirstLongGap(Some(next), rest, threshold).Some? {
          var i :| IsFirstLongGap(next, rest, i, threshold)
                   && FirstLongGap(Some(next), rest, threshold).value == GapAt(next, rest, i);
          forall j | 0 <= j < i + 1 ensures dates[j].Some? && !IsLongGap(start, dates, j, threshold) {
            if j > 0 { assert rest[j - 1].Some? && !IsLongGap(next, rest, j - 1, threshold); }
          }
          assert IsFirstLongGap(start, dates, i + 1, threshold);
        } else {
          forall i | 0 <= i < |dates| ensures dates[i].Some? && !IsLongGap(start, dates, i, threshold) {
            if i > 0 { assert rest[i - 1].Some? && !IsLongGap(next, rest, i - 1, threshold); }
          }
        }
      }
    }
  }

  /** The walk reads nothing past the first long gap: whatever follows it,
      null dates included, the walk is defined and reports that gap. */
  lemma {:induction false} ReadsUpToFirstLongGap(start: int, dates: seq<Option<int>>, i: int, threshold: real,
                                                 tail: seq<Option<int>>)
    requires IsFirstLongGap(start, dates, i, threshold)
    ensures Reached(Some(start), dates[..i + 1] + tail, threshold)
    ensures FirstLongGap(Some(start), dates[..i + 1] + tail, threshold) == Some(GapAt(start, dates, i))
    decreases i
  {
    var walked := dates[..i + 1] + tail;
    assert walked[0] == dates[0];
    if i > 0 {
      var next := dates[0].value;
      var rest := dates[1..];
      assert !IsLongGap(start, dates, 0, threshold);
      forall j | 0 <= j < i - 1 ensures rest[j].Some? && !IsLongGap(next, rest, j, threshold) {
        assert dates[j + 1].Some? && !IsLongGap(start, dates, j + 1, threshold);
      }
      assert IsLongGap(next, rest, i - 1, threshold);
      ReadsUpToFirstLongGap(next, rest, i - 1, threshold, tail);
      assert walked[1..] == rest[..i] + tail;
    }
  }

  /** A null date after a long gap is never read: from day 0 with an
      average iteration length of 14 days and the default rate 2.0, the
      dates [day 100, null] give the gap of 100 days. */
  lemma NullAfterLongGapExample()
    ensures Reached(Some(0), [Some(100), None], GapThreshold(2.0, 14))
    ensures FirstLongGap(Some(0), [Some(100), None], GapThreshold(2.0, 14)) == Some(100)
  {
    assert IsFirstLongGap(0, [Some(100), None], 0, GapThreshold(2.0, 14));
    ReadsUpToFirstLongGap(0, [Some(100), None], 0, GapThreshold(2.0, 14), [None]);
    assert [Some(100), None][..1] + [None] == [Some(100), None];
  }

  /** The dates the selected branch walks (none for the two ideal branches). */
  function WalkedDates(f: Facts, divisionOfIterationsWithFeedbackLoop: real): seq<Option<int>> {
    match SelectBranch(f, divisionOfIterationsWithFeedbackLoop)
    case ActivityGaps => f.activityDates
    case WikiGaps => f.wikiDates
    case _ => []
  }

  /** The branch that walks has every date its walk reads. */
  predicate Walkable(f: Facts, divisionOfIterationsWithFeedbackLoop: real, maxGapBetweenFeedbackLoopRate: real) {
    Reached(f.projectStart, WalkedDates(f, divisionOfIterationsWithFeedbackLoop),
            GapThreshold(maxGapBetweenFeedbackLoopRate, f.averageIterationLength))
  }

  /** The outcome of a spacing check over `dates`. */
  function GapVerdict(antiPattern: AntiPattern, projectStart: Option<int>, dates: seq<Option<int>>, averageIterationLength: int,
                      maxGapBetweenFeedbackLoopRate: real): QueryResultItem
    requires Reached(projectStart, dates, GapThreshold(maxGapBetweenFeedbackLoopRate, averageIterationLength))
  {
    var threshold := GapThreshold(maxGapBetweenFeedbackLoopRate, averageIterationLength);
    match FirstLongGap(projectStart, dates, threshold)
    case Some(gap) =>
      QueryResultItem(antiPattern, true, [
        ResultDetail("Days between", IntToString(gap)),
        ResultDetail("Average iteration length", IntToString(averageIterationLength)),
        ResultDetail("Conclusion", TooLongConclusion)])
    case None =>
      QueryResultItem(antiPattern, false, [
        ResultDetail("Average iteration length", IntToString(averageIterationLength)),
        ResultDetail("Conclusion", GapsFineConclusion)])
  }

  /** The verdict of the decision tree on extracted facts. */
  function FeedbackVerdict(antiPattern: AntiPattern, f: Facts, divisionOfIterationsWithFeedbackLoop: real,
                           maxGapBetweenFeedbackLoopRate: real): QueryResultItem
    requires Walkable(f, divisionOfIterationsWithFeedbackLoop, maxGapBetweenFeedbackLoopRate)
  {
    match SelectBranch(f, divisionOfIterationsWithFeedbackLoop)
    case ActivityIdeal =>
      QueryResultItem(antiPattern, false, [
        ResultDetail("Number of iterations", IntToString(f.totalIterations)),
        ResultDetail("Number of iterations with feedback loops", IntToString(f.iterationsWithActivity)),
        ResultDetail("Conclusion", ActivityIdealConclusion)])
    case ActivityGaps =>
      GapVerdict(antiPattern, f.projectStart, f.activityDates, f.averageIterationLength, maxGapBetweenFeedbackLoopRate)
    case WikiIdeal =>
      QueryResultItem(antiPattern, false, [
        ResultDetail("Number of iterations", IntToString(f.totalIterations)),
        ResultDetail("Number of iterations with feedback loops", IntToString(f.iterationsWithWikiPage)),
        ResultDetail("Conclusion", WikiIdealConclusion)])
    case WikiGaps =>
      GapVerdict(antiPattern, f.projectStart, f.wikiDates, f.averageIterationLength, maxGapBetweenFeedbackLoopRate)
  }

  /** Branch A: when every iteration has a feedback activity the anti-pattern
      is absent, whatever the dates, with the two counts as evidence. */
  lemma ActivityIdealIgnoresDates(antiPattern: AntiPattern, f: Facts, division: real, rate: real,
                                  activityDates: seq<Option<int>>, wikiDates: seq<Option<int>>, start: Option<int>)
    requires f.totalIterations <= f.iterationsWithActivity
    ensures var g := f.(activityDates := activityDates, wikiDates := wikiDates, projectStart := start);
            && Walkable(f, division, rate) && Walkable(g, division, rate)
            && FeedbackVerdict(antiPattern, f, division, rate) == FeedbackVerdict(antiPattern, g, division, rate)
            && !FeedbackVerdict(antiPattern, f, division, rate).detected
            && |FeedbackVerdict(antiPattern, f, division, rate).details| == 3
  {
  }

  /** A spacing check detects exactly when some gap reaches the threshold,
      and then reports the first such gap as "Days between". */
  lemma GapVerdictSpec(antiPattern: AntiPattern, start: int, dates: seq<Option<int>>, averageIterationLength: int, rate: real)
    requires Reached(Some(start), dates, GapThreshold(rate, averageIterationLength))
    ensures var item := GapVerdict(antiPattern, Some(start), dates, averageIterationLength, rate);
            var threshold := GapThreshold(rate, averageIterationLength);
            && (item.detected <==> exists i :: IsLongGap(start, dates, i, threshold))
            && (item.detected ==>
                  exists i :: IsFirstLongGap(start, dates, i, threshold)
                    && item.details[0] == ResultDetail("Days between", IntToString(GapAt(start, dates, i))))
  {
    FirstLongGapSpec(start, dates, GapThreshold(rate, averageIterationLength));
  }

  /** A detection comes only from a spacing check (activity dates or wiki
      dates, after the project start) that found a gap of at least the
      threshold; the reported "Days between" is the first such gap. Conversely
      such a gap in a walking branch always yields a detection. */
  lemma DetectedOnlyOnLongGap(antiPattern: AntiPattern, f: Facts, division: real, rate: real)
    requires Walkable(f, division, rate)
    ensures var item := FeedbackVerdict(antiPattern, f, division, rate);
            var dates := WalkedDates(f, division);
            var threshold := GapThreshold(rate, f.averageIterationLength);
            && (item.detected ==>
                  && SelectBranch(f, division) in {ActivityGaps, WikiGaps}
                  && f.projectStart.Some?
                  && exists i :: IsFirstLongGap(f.projectStart.value, dates, i, threshold)
                       && item.details[0] == ResultDetail("Days between", IntToString(GapAt(f.projectStart.value, dates, i))))
            && ((SelectBranch(f, division) in {ActivityGaps, WikiGaps}
                 && f.projectStart.Some?
                 && exists i :: IsLongGap(f.projectStart.value, dates, i, threshold))
                ==> item.detected)
  {
    var dates := WalkedDates(f, division);
    var item := FeedbackVerdict(antiPattern, f, division, rate);
    var branch := SelectBranch(f, division);
    if branch == ActivityGaps || branch == WikiGaps {
      assert item == GapVerdict(antiPattern, f.projectStart, dates, f.averageIterationLength, rate);
      if f.projectStart.Some? {
        GapVerdictSpec(antiPattern, f.projectStart.value, dates, f.averageIterationLength, rate);
      } else {
        assert dates == [];
      }
    } else {
      assert !item.detected;
    }
  }

  /** A spacing check with no dates, such as an empty list of wiki pages,
      never detects. */
  lemma NoDatesNoDetection(antiPattern: AntiPattern, f: Facts, division: real, rate: real)
    requires WalkedDates(f, division) == []
    ensures Walkable(f, division, rate)
    ensures !FeedbackVerdict(antiPattern, f, division, rate).detected
  {
  }

  /** The project end date is extracted but never affects the verdict. */
  lemma ProjectEndIrrelevant(antiPattern: AntiPattern, f: Facts, division: real, rate: real, end: Option<int>)
    requires Walkable(f, division, rate)
    ensures Walkable(f.(projectEnd := end), division, rate)
    ensures FeedbackVerdict(antiPattern, f.(projectEnd := end), division, rate) == FeedbackVerdict(antiPattern, f, division, rate)
  {
  }

  class LongOrNonExistentFeedbackLoopsDetector {
    const antiPattern: AntiPattern
    var divisionOfIterationsWithFeedbackLoop: real
    var maxGapBetweenFeedbackLoopRate: real

    constructor ()
      ensures antiPattern == AntiPattern(6, "Long Or Non Existent Feedback Loops", "LongOrNonExistentFeedbackLoops")
      ensures divisionOfIterationsWithFeedbackLoop == 0.5 && maxGapBetweenFeedbackLoopRate == 2.0
    {
      antiPattern := AntiPattern(6, "Long Or Non Existent Feedback Loops", "LongOrNonExistentFeedbackLoops");
      divisionOfIterationsWithFeedbackLoop := 0.5;
      maxGapBetweenFeedbackLoopRate := 2.0;
    }

    /** Walks [projectStartDate] + dates, stopping at the first gap of at
        least `maxGapBetweenFeedbackLoopRate` times the average length. */
    method GapWalk(projectStartDate: Option<int>, dates: seq<Option<int>>, averageIterationLength: int) returns (longGap: Option<int>)
      requires Reached(projectStartDate, dates, GapThreshold(maxGapBetweenFeedbackLoopRate, averageIterationLength))
      ensures longGap == FirstLongGap(projectStartDate, dates, GapThreshold(maxGapBetweenFeedbackLoopRate, averageIterationLength))
    {
      ghost var threshold := GapThreshold(maxGapBetweenFeedbackLoopRate, averageIterationLength);
      var firstDate := projectStartDate;
      for k := 0 to |dates|
        invariant Reached(firstDate, dates[k..], threshold)
        invariant FirstLongGap(firstDate, dates[k..], threshold) == FirstLongGap(projectStartDate, dates, threshold)
      {
        assert dates[k..][0] == dates[k] && dates[k..][1..] == dates[k + 1..];
        var secondDate := dates[k];
        var daysBetween := DaysBetween(firstDate.value, secondDate.value);
        firstDate := secondDate;
        if daysBetween as real >= GapThreshold(maxGapBetweenFeedbackLoopRate, averageIterationLength) {
          return Some(daysBetween);
        }
      }
      return None;
    }

    /** Extracts the facts by position from the result sets present. */
    method ExtractFacts(resultSets: seq<ResultSet>) returns (f: Facts)
      requires WellTyped(resultSets)
      ensures f == Extract(resultSets)
    {
      var totalNumberIterations := 0;
      var averageIterationLength := 0;
      var numberOfIterationsWithActivity := 0;
      var numberOfIterationsWithWikiPage := 0;
      var feedbackActivityEndDates: seq<Option<int>> := [];
      var feedbackWikiPagesEndDates: seq<Option<int>> := [];
      var projectStartDate: Option<int> := None;
      var projectEndDate: Option<int> := None;

      for i := 0 to |resultSets|
        invariant WellTyped(resultSets[..i])
        invariant Facts(totalNumberIterations, averageIterationLength, numberOfIterationsWithActivity,
                        feedbackActivityEndDates, projectStartDate, projectEndDate,
                        numberOfIterationsWithWikiPage, feedbackWikiPagesEndDates)
               == Extract(resultSets[..i])
      {
        var rs := resultSets[i];
        match i
        case 0 =>
          totalNumberIterations := Field(rs[0], IterationsKey).n;
        case 1 =>
          averageIterationLength := Wrap32(TruncateToInt(Field(rs[0], AverageLengthKey).d));
        case 2 =>
          if |rs| != 0 {
            numberOfIterationsWithActivity := Wrap32(Field(rs[0], ActivityCountKey).n);
          }
        case 3 =>
          for r := 0 to |rs|
            invariant feedbackActivityEndDates == DateColumn(rs[..r], EndDateKey)
          {
            var activityEndDate := DateOrNull(Field(rs[r], EndDateKey));
            assert DateColumn(rs[..r + 1], EndDateKey) == DateColumn(rs[..r], EndDateKey) + [activityEndDate];
            feedbackActivityEndDates := feedbackActivityEndDates + [activityEndDate];
          }
          assert rs[..|rs|] == rs;
        case 4 =>
          projectStartDate := DateOrNull(Field(rs[0], StartDateKey));
        case 5 =>
          projectEndDate := DateOrNull(Field(rs[0], EndDateKey));
        case 6 =>
          numberOfIterationsWithWikiPage := |rs|;
          for r := 0 to |rs|
            invariant feedbackWikiPagesEndDates == DateColumn(rs[..r], AppointmentDateKey)
          {
            var wikiPageEndDate := DateOrNull(Field(rs[r], AppointmentDateKey));
            assert DateColumn(rs[..r + 1], AppointmentDateKey) == DateColumn(rs[..r], AppointmentDateKey) + [wikiPageEndDate];
            feedbackWikiPagesEndDates := feedbackWikiPagesEndDates + [wikiPageEndDate];
          }
          assert rs[..|rs|] == rs;
        case _ =>
      }
      assert resultSets[..|resultSets|] == resultSets;
      f := Facts(totalNumberIterations, averageIterationLength, numberOfIterationsWithActivity,
                 feedbackActivityEndDates, projectStartDate, projectEndDate,
                 numberOfIterationsWithWikiPage, feedbackWikiPagesEndDates);
    }

    method Analyze(resultSets: seq<ResultSet>) returns (item: QueryResultItem)
      requires WellTyped(resultSets)
      requires Walkable(Extract(resultSets), divisionOfIterationsWithFeedbackLoop, maxGapBetweenFeedbackLoopRate)
      ensures item == FeedbackVerdict(antiPattern, Extract(resultSets), divisionOfIterationsWithFeedbackLoop,
                                      maxGapBetweenFeedbackLoopRate)
    {
      var f := ExtractFacts(resultSets);
      var halfNumberOfIterations := HalfOfIterations(f.totalIterations, divisionOfIterationsWithFeedbackLoop);

      if f.totalIterations <= f.iterationsWithActivity {
        item := QueryResultItem(antiPattern, false, [
          ResultDetail("Number of iterations", IntToString(f.totalIterations)),
          ResultDetail("Number of iterations with feedback loops", IntToString(f.iterationsWithActivity)),
          ResultDetail("Conclusion", ActivityIdealConclusion)]);
      } else if |f.activityDates| as real > halfNumberOfIterations {
        item := SpacingCheck(f.projectStart, f.activityDates, f.averageIterationLength);
      } else {
        if f.iterationsWithWikiPage >= f.totalIterations {
          item := QueryResultItem(antiPattern, false, [
            ResultDetail("Number of iterations", IntToString(f.totalIterations)),
            ResultDetail("Number of iterations with feedback loops", IntToString(f.iterationsWithWikiPage)),
            ResultDetail("Conclusion", WikiIdealConclusion)]);
          return;
        }
        item := SpacingCheck(f.projectStart, f.wikiDates, f.averageIterationLength);
      }
    }

    /** A spacing check: walks the dates from the project start and reports
        the first long gap, or that the gaps are fine. */
    method SpacingCheck(projectStartDate: Option<int>, dates: seq<Option<int>>, averageIterationLength: int)
      returns (item: QueryResultItem)
      requires Reached(projectStartDate, dates, GapThreshold(maxGapBetweenFeedbackLoopRate, averageIterationLength))
      ensures item == GapVerdict(antiPattern, projectStartDate, dates, averageIterationLength, maxGapBetweenFeedbackLoopRate)
    {
      var longGap := GapWalk(projectStartDate, dates, averageIterationLength);
      if longGap.Some? {
        item := QueryResultItem(antiPattern, true, [
          ResultDetail("Days between", IntToString(longGap.value)),
          ResultDetail("Average iteration length", IntToString(averageIterationLength)),
          ResultDetail("Conclusion", TooLongConclusion)]);
      } else {
        item := QueryResultItem(antiPattern, false, [
          ResultDetail("Average iteration length", IntToString(averageIterationLength)),
          ResultDetail("Conclusion", GapsFineConclusion)]);
      }
    }
  }
}
