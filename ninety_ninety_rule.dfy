/**
 Ninety-Ninety Rule: flattens the non-null spent/estimated time ratios of all
 result sets into one sequence. When none exceeds `maxDivisionRange` the
 anti-pattern is absent at once; otherwise the sequence is scanned for more
 than `maxBadDivisionLimit` consecutive ratios above the range.
 */
module NinetyNinetyRule {
  import opened Common

  const RatioKey := "timeDivision"

  const AllInRangeConclusion := "All divisions of estimated and spent time are in range"
  const BadTrendSuffix := " or more consecutive iterations has a bad trend in estimates"
  const NoTrendConclusion := "No significant trend was found for estimation and time worked on activities"

  /** The `(Double)` cast accepts the field: it is a Double, null or missing. */
  predicate RatioTyped(row: Row) {
    Field(row, RatioKey).Null? || Field(row, RatioKey).Double?
  }

  predicate RowsTyped(rs: ResultSet) {
    forall i :: 0 <= i < |rs| ==> RatioTyped(rs[i])
  }

  predicate WellTyped(resultSets: seq<ResultSet>) {
    forall j :: 0 <= j < |resultSets| ==> RowsTyped(resultSets[j])
  }

  /** The ratio a row carries; None when the field is missing or null. */
  function RowRatio(row: Row): (r: Option<real>)
    requires RatioTyped(row)
    ensures r.None? <==> Field(row, RatioKey).Null?
    ensures r.Some? ==> Field(row, RatioKey) == Double(r.value)
  {
    match Field(row, RatioKey)
    case Double(x) => Some(x)
    case _ => None
  }

  /** The non-null ratios of one result set, in row order. */
  function RowRatios(rs: ResultSet): (r: seq<real>)
    requires RowsTyped(rs)
    ensures |r| <= |rs|
  {
    if rs == [] then []
    else
      var init := rs[..|rs| - 1];
      assert forall i :: 0 <= i < |init| ==> init[i] == rs[i];
      match RowRatio(rs[|rs| - 1])
      case Some(x) => RowRatios(init) + [x]
      case None => RowRatios(init)
  }

  /** Null ratios are skipped: every ratio kept comes from a non-null row,
      and every non-null ratio is kept. */
  lemma {:induction false} RowRatiosKeepExactlyNonNull(rs: ResultSet)
    requires RowsTyped(rs)
    ensures forall x :: x in RowRatios(rs) ==> exists i :: 0 <= i < |rs| && Field(rs[i], RatioKey) == Double(x)
    ensures forall i :: 0 <= i < |rs| && Field(rs[i], RatioKey).Double? ==> Field(rs[i], RatioKey).x in RowRatios(rs)
  {
    if rs != [] {
      var n := |rs| - 1;
      var init := rs[..n];
      assert forall i :: 0 <= i < |init| ==> init[i] == rs[i];
      RowRatiosKeepExactlyNonNull(init);
      forall x | x in RowRatios(rs)
        ensures exists i :: 0 <= i < |rs| && Field(rs[i], RatioKey) == Double(x)
      {
        if x in RowRatios(init) {
          var i :| 0 <= i < |init| && Field(init[i], RatioKey) == Double(x);
          assert Field(rs[i], RatioKey) == Double(x);
        } else {
          assert Field(rs[n], RatioKey) == Double(x);
        }
      }
    }
  }

  /** All non-null ratios: result-set order, then row order. */
  function Ratios(resultSets: seq<ResultSet>): seq<real>
    requires WellTyped(resultSets)
  {
    if resultSets == [] then []
    else Ratios(resultSets[..|resultSets| - 1]) + RowRatios(resultSets[|resultSets| - 1])
  }

  /** The rows of all result sets, one after another. */
  function Flatten(resultSets: seq<ResultSet>): ResultSet {
    if resultSets == [] then []
    else Flatten(resultSets[..|resultSets| - 1]) + resultSets[|resultSets| - 1]
  }

  lemma {:induction false} RowRatiosAppend(a: ResultSet, b: ResultSet)
    requires RowsTyped(a) && RowsTyped(b)
    ensures RowsTyped(a + b)
    ensures RowRatios(a + b) == RowRatios(a) + RowRatios(b)
  {
    assert RowsTyped(a + b) by {
      forall i | 0 <= i < |a + b| ensures RatioTyped((a + b)[i]) {
        if i < |a| { assert (a + b)[i] == a[i]; } else { assert (a + b)[i] == b[i - |a|]; }
      }
    }
    if b == [] {
      assert a + b == a;
    } else {
      var n := |b| - 1;
      assert (a + b)[..|a + b| - 1] == a + b[..n];
      RowRatiosAppend(a, b[..n]);
    }
  }

  /** Result-set boundaries carry no meaning: the ratios are those of all
      rows taken as one result set. */
  lemma {:induction false} RatiosOfFlatten(resultSets: seq<ResultSet>)
    requires WellTyped(resultSets)
    ensures RowsTyped(Flatten(resultSets))
    ensures Ratios(resultSets) == RowRatios(Flatten(resultSets))
  {
    if resultSets != [] {
      var n := |resultSets| - 1;
      RatiosOfFlatten(resultSets[..n]);
      RowRatiosAppend(Flatten(resultSets[..n]), resultSets[n]);
    }
  }

  /** One more row: its ratio is appended when it has one, and the
      all-in-range flag is updated with it. */
  lemma RowRatiosStep(resultSets: seq<ResultSet>, j: int, r: int, maxDivisionRange: real)
    requires WellTyped(resultSets) && 0 <= j < |resultSets| && 0 <= r < |resultSets[j]|
    ensures WellTyped(resultSets[..j]) && RowsTyped(resultSets[j][..r]) && RowsTyped(resultSets[j][..r + 1])
    ensures var rs := resultSets[j];
            var before := Ratios(resultSets[..j]) + RowRatios(rs[..r]);
            var after := Ratios(resultSets[..j]) + RowRatios(rs[..r + 1]);
            && RatioTyped(rs[r])
            && after == before + (if RowRatio(rs[r]).Some? then [RowRatio(rs[r]).value] else [])
            && (AllInRange(after, maxDivisionRange)
                <==> AllInRange(before, maxDivisionRange)
                     && (RowRatio(rs[r]).Some? ==> RowRatio(rs[r]).value <= maxDivisionRange))
  {
    var rs := resultSets[j];
    assert rs[..r + 1][..r] == rs[..r];
    var before := Ratios(resultSets[..j]) + RowRatios(rs[..r]);
    if RowRatio(rs[r]).Some? {
      AllInRangeAppend(before, RowRatio(rs[r]).value, maxDivisionRange);
      assert Ratios(resultSets[..j]) + RowRatios(rs[..r + 1]) == before + [RowRatio(rs[r]).value];
    }
  }

  lemma RatiosStep(resultSets: seq<ResultSet>, j: int)
    requires WellTyped(resultSets) && 0 <= j < |resultSets|
    ensures WellTyped(resultSets[..j]) && WellTyped(resultSets[..j + 1])
    ensures Ratios(resultSets[..j + 1]) == Ratios(resultSets[..j]) + RowRatios(resultSets[j])
  {
    assert resultSets[..j + 1][..j] == resultSets[..j];
  }

  predicate AllInRange(ratios: seq<real>, maxDivisionRange: real) {
    forall i :: 0 <= i < |ratios| ==> ratios[i] <= maxDivisionRange
  }

  lemma AllInRangeAppend(ratios: seq<real>, ratio: real, maxDivisionRange: real)
    ensures AllInRange(ratios + [ratio], maxDivisionRange)
        <==> AllInRange(ratios, maxDivisionRange) && ratio <= maxDivisionRange
  {
    assert forall i :: 0 <= i < |ratios| ==> (ratios + [ratio])[i] == ratios[i];
    assert (ratios + [ratio])[|ratios|] == ratio;
  }

  /** The counter after one more ratio: up by one above the range, back to
      zero otherwise. */
  function Bump(counter: nat, ratio: real, maxDivisionRange: real): nat {
    if ratio > maxDivisionRange then counter + 1 else 0
  }

  /** The counter after scanning `ratios`: the length of the run of
      over-range ratios that ends the sequence. */
  function RunLength(ratios: seq<real>, maxDivisionRange: real): (c: nat)
    ensures c <= |ratios|
  {
    if ratios == [] then 0
    else Bump(RunLength(ratios[..|ratios| - 1], maxDivisionRange), ratios[|ratios| - 1], maxDivisionRange)
  }

  /** The counter is the length of the maximal run of over-range ratios
      at the end: all of them are over, and the one before is not. */
  lemma {:induction false} RunLengthIsFinalRun(ratios: seq<real>, maxDivisionRange: real)
    ensures var c := RunLength(ratios, maxDivisionRange);
            && (forall i :: |ratios| - c <= i < |ratios| ==> ratios[i] > maxDivisionRange)
            && (c < |ratios| ==> ratios[|ratios| - c - 1] <= maxDivisionRange)
  {
    if ratios != [] {
      var init := ratios[..|ratios| - 1];
      RunLengthIsFinalRun(init, maxDivisionRange);
      assert forall i :: 0 <= i < |init| ==> init[i] == ratios[i];
    }
  }

  lemma RunLengthStep(ratios: seq<real>, k: int, maxDivisionRange: real)
    requires 0 <= k < |ratios|
    ensures RunLength(ratios[..k + 1], maxDivisionRange)
         == Bump(RunLength(ratios[..k], maxDivisionRange), ratios[k], maxDivisionRange)
  {
    assert ratios[..k + 1][..k] == ratios[..k];
  }

  /** The scan returns early: at some point the counter exceeds the limit. */
  predicate Trips(ratios: seq<real>, maxDivisionRange: real, maxBadDivisionLimit: int) {
    exists k :: 0 < k <= |ratios| && RunLength(ratios[..k], maxDivisionRange) > maxBadDivisionLimit
  }

  predicate AllOver(ratios: seq<real>, i: int, j: int, maxDivisionRange: real)
    requires 0 <= i <= j <= |ratios|
  {
    forall k :: i <= k < j ==> ratios[k] > maxDivisionRange
  }

  /** Reference definition: the ratios hold more than `maxBadDivisionLimit`
      consecutive values above the range. */
  predicate HasOverrunRun(ratios: seq<real>, maxDivisionRange: real, maxBadDivisionLimit: int) {
    exists i, j :: 0 <= i < j <= |ratios| && j - i > maxBadDivisionLimit && AllOver(ratios, i, j, maxDivisionRange)
  }

  /** For a non-negative limit the scan trips exactly when the ratios hold
      a run of more than `maxBadDivisionLimit` over-range values. */
  lemma TripsIffOverrunRun(ratios: seq<real>, maxDivisionRange: real, maxBadDivisionLimit: int)
    requires maxBadDivisionLimit >= 0
    ensures Trips(ratios, maxDivisionRange, maxBadDivisionLimit)
        <==> HasOverrunRun(ratios, maxDivisionRange, maxBadDivisionLimit)
  {
    if Trips(ratios, maxDivisionRange, maxBadDivisionLimit) {
      var k :| 0 < k <= |ratios| && RunLength(ratios[..k], maxDivisionRange) > maxBadDivisionLimit;
      var c := RunLength(ratios[..k], maxDivisionRange);
      RunLengthIsFinalRun(ratios[..k], maxDivisionRange);
      assert AllOver(ratios, k - c, k, maxDivisionRange) by {
        forall i | k - c <= i < k ensures ratios[i] > maxDivisionRange {
          assert ratios[..k][i] == ratios[i];
        }
      }
    }
    if HasOverrunRun(ratios, maxDivisionRange, maxBadDivisionLimit) {
      var i, j :| 0 <= i < j <= |ratios| && j - i > maxBadDivisionLimit && AllOver(ratios, i, j, maxDivisionRange);
      var prefix := ratios[..j];
      assert forall t :: 0 <= t < j ==> prefix[t] == ratios[t];
      RunLengthIsFinalRun(prefix, maxDivisionRange);
      assert RunLength(prefix, maxDivisionRange) >= j - i;
    }
  }

  /** The all-in-range short-circuit gives the answer the scan would give
      on its own, for any non-negative limit. */
  lemma AllInRangeNeverTrips(ratios: seq<real>, maxDivisionRange: real, maxBadDivisionLimit: int)
    requires maxBadDivisionLimit >= 0 && AllInRange(ratios, maxDivisionRange)
    ensures !Trips(ratios, maxDivisionRange, maxBadDivisionLimit)
  {
    forall k | 0 < k <= |ratios| ensures RunLength(ratios[..k], maxDivisionRange) == 0 {
      assert ratios[..k][k - 1] == ratios[k - 1];
    }
  }

  class NinetyNinetyRuleDetector {
    const antiPattern: AntiPattern
    var maxDivisionRange: real
    var maxBadDivisionLimit: int

    constructor ()
      ensures antiPattern == AntiPattern(7, "Ninety Ninety Rule", "NinetyNinetyRule")
      ensures maxDivisionRange == 1.25 && maxBadDivisionLimit == 2
    {
      antiPattern := AntiPattern(7, "Ninety Ninety Rule", "NinetyNinetyRule");
      maxDivisionRange := 1.25;
      maxBadDivisionLimit := 2;
    }

    /** First phase: the non-null ratios of every result set, in order, and
        whether all of them are within the range. */
    method CollectRatios(resultSets: seq<ResultSet>) returns (divisionsResults: seq<real>, isAllInRange: bool)
      requires WellTyped(resultSets)
      ensures divisionsResults == Ratios(resultSets)
      ensures isAllInRange <==> AllInRange(divisionsResults, maxDivisionRange)
    {
      divisionsResults := [];
      isAllInRange := true;
      for j := 0 to |resultSets|
        invariant divisionsResults == Ratios(resultSets[..j])
        invariant isAllInRange == AllInRange(divisionsResults, maxDivisionRange)
      {
        RatiosStep(resultSets, j);
        var rs := resultSets[j];
        for r := 0 to |rs|
          invariant divisionsResults == Ratios(resultSets[..j]) + RowRatios(rs[..r])
          invariant isAllInRange == AllInRange(divisionsResults, maxDivisionRange)
        {
          RowRatiosStep(resultSets, j, r, maxDivisionRange);
          var resultDivision := RowRatio(rs[r]);
          if resultDivision.None? {
            continue;
          }
          divisionsResults := divisionsResults + [resultDivision.value];
          if resultDivision.value > maxDivisionRange {
            isAllInRange := false;
          }
        }
        assert rs[..|rs|] == rs;
      }
      assert resultSets[..|resultSets|] == resultSets;
    }

    /** Second phase: scans the ratios with the consecutive-overrun counter
        and stops as soon as it exceeds the limit. */
    method ScanForOverrun(divisionsResults: seq<real>) returns (tripped: bool)
      ensures tripped <==> Trips(divisionsResults, maxDivisionRange, maxBadDivisionLimit)
    {
      var counterOverEstimated: nat := 0;
      for k := 0 to |divisionsResults|
        invariant counterOverEstimated == RunLength(divisionsResults[..k], maxDivisionRange)
        invariant forall k' :: 0 < k' <= k ==> RunLength(divisionsResults[..k'], maxDivisionRange) <= maxBadDivisionLimit
      {
        RunLengthStep(divisionsResults, k, maxDivisionRange);
        if divisionsResults[k] > maxDivisionRange {
          counterOverEstimated := counterOverEstimated + 1;
        } else {
          counterOverEstimated := 0;
        }
        if counterOverEstimated > maxBadDivisionLimit {
          return true;
        }
      }
      return false;
    }

    /** Every outcome carries exactly one detail, the conclusion. */
    method Analyze(resultSets: seq<ResultSet>) returns (item: QueryResultItem)
      requires WellTyped(resultSets)
      ensures item.antiPattern == antiPattern
      ensures |item.details| == 1 && item.details[0].name == "Conclusion"
      ensures AllInRange(Ratios(resultSets), maxDivisionRange) ==>
                !item.detected && item.details[0].value == AllInRangeConclusion
      ensures !AllInRange(Ratios(resultSets), maxDivisionRange) ==>
                && (item.detected <==> Trips(Ratios(resultSets), maxDivisionRange, maxBadDivisionLimit))
                && item.details[0].value
                   == if item.detected then IntToString(maxBadDivisionLimit) + BadTrendSuffix else NoTrendConclusion
      ensures maxBadDivisionLimit >= 0 ==>
                (item.detected <==> HasOverrunRun(Ratios(resultSets), maxDivisionRange, maxBadDivisionLimit))
    {
      var resultDetails: seq<ResultDetail> := [];
      var divisionsResults, isAllInRange := CollectRatios(resultSets);
      if maxBadDivisionLimit >= 0 {
        TripsIffOverrunRun(divisionsResults, maxDivisionRange, maxBadDivisionLimit);
      }

      if isAllInRange {
        if maxBadDivisionLimit >= 0 {
          AllInRangeNeverTrips(divisionsResults, maxDivisionRange, maxBadDivisionLimit);
        }
        resultDetails := resultDetails + [ResultDetail("Conclusion", AllInRangeConclusion)];
        item := QueryResultItem(antiPattern, false, resultDetails);
        return;
      }

      var tripped := ScanForOverrun(divisionsResults);
      if tripped {
        resultDetails := resultDetails
          + [ResultDetail("Conclusion", IntToString(maxBadDivisionLimit) + BadTrendSuffix)];
        item := QueryResultItem(antiPattern, true, resultDetails);
        return;
      }

      resultDetails := resultDetails + [ResultDetail("Conclusion", NoTrendConclusion)];
      item := QueryResultItem(antiPattern, false, resultDetails);
    }
  }
}
