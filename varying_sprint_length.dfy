/**
 Varying Sprint Length: walks the iteration lengths (ordered by iteration
 name, first and last removed by the query) pairwise and counts the
 adjacent pairs whose lengths differ by at least `maxDaysDifference` days;
 the anti-pattern is present when that count exceeds `maxIterationChanged`.
 A failure while reading the cursor is reported as a detection.
 */
module VaryingSprintLength {
  import opened Common

  const ChangedTooOftenConclusion := "Iteration length changed significantly too often"
  const AllRightConclusion := "Varying iteration length is all right"
  const ReadProblem := "Problem in reading database"

  /** The forward-only cursor: the `iterationLength` column of each row it
      delivers (None for SQL NULL), then the failure text of the exception
      raised by the advance after the last delivered row, if one is raised. */
  datatype Cursor = Cursor(rows: seq<Option<int>>, failure: Option<string>)

  /** `ResultSet.getInt`: SQL NULL reads as 0. */
  function GetInt(v: Option<int>): int {
    if v.Some? then v.value else 0
  }

  /** The column holds Java ints. */
  predicate Int32Rows(c: Cursor) {
    forall i :: 0 <= i < |c.rows| ==> c.rows[i].None? || IsInt32(c.rows[i].value)
  }

  predicate AllInt32(lengths: seq<int>) {
    forall i :: 0 <= i < |lengths| ==> IsInt32(lengths[i])
  }

  /** The lengths the loop reads, one per row, in cursor order. */
  function Lengths(c: Cursor): (s: seq<int>)
    requires Int32Rows(c)
    ensures |s| == |c.rows| && AllInt32(s)
    ensures forall i :: 0 <= i < |s| ==> (c.rows[i].Some? ==> s[i] == c.rows[i].value) && (c.rows[i].None? ==> s[i] == 0)
  {
    seq(|c.rows|, i requires 0 <= i < |c.rows| => GetInt(c.rows[i]))
  }

  /** The cursor is present and its reading ends in an exception. */
  predicate ReadFails(rs: Option<Cursor>) {
    rs.Some? && rs.value.failure.Some?
  }

  /** The lengths read from a cursor; a null cursor yields none. */
  function CursorLengths(rs: Option<Cursor>): (s: seq<int>)
    requires rs.Some? ==> Int32Rows(rs.value)
    ensures rs.None? ==> s == []
    ensures AllInt32(s)
  {
    if rs.Some? then Lengths(rs.value) else []
  }

  /** A comparison counts as a change when Java's `Math.abs(previous - current)`
      reaches `maxDaysDifference`; subtraction and negation wrap as Java ints do. */
  predicate IsChange(previous: int, current: int, maxDaysDifference: int)
    requires IsInt32(previous) && IsInt32(current)
  {
    JavaAbs(Wrap32(previous - current)) >= maxDaysDifference
  }

  /** The loop's state: the previous length (Integer.MIN_VALUE meaning "none
      yet") and the number of changes counted. */
  datatype WalkState = WalkState(previous: int, changes: nat)

  /** Reading one more length: the first one only seeds, later ones are
      compared with the previous one; either way the new one becomes the
      previous one. */
  function Step(w: WalkState, current: int, maxDaysDifference: int): WalkState
    requires IsInt32(w.previous) && IsInt32(current)
  {
    if w.previous == IntMin then WalkState(current, w.changes)
    else WalkState(current, w.changes + if IsChange(w.previous, current, maxDaysDifference) then 1 else 0)
  }

  /** The state after reading `lengths`. The first length only seeds the
      previous one; every length replaces it; a change is counted at most
      once per row after the first. */
  function Walk(lengths: seq<int>, maxDaysDifference: int): (w: WalkState)
    requires AllInt32(lengths)
    ensures IsInt32(w.previous)
    ensures lengths == [] ==> w == WalkState(IntMin, 0)
    ensures lengths != [] ==> w.previous == lengths[|lengths| - 1] && w.changes < |lengths|
  {
    if lengths == [] then WalkState(IntMin, 0)
    else
      Step(Walk(lengths[..|lengths| - 1], maxDaysDifference), lengths[|lengths| - 1], maxDaysDifference)
  }

  lemma WalkPrefix(lengths: seq<int>, k: int, maxDaysDifference: int)
    requires AllInt32(lengths) && 0 <= k < |lengths|
    ensures AllInt32(lengths[..k]) && AllInt32(lengths[..k + 1])
    ensures Walk(lengths[..k + 1], maxDaysDifference)
         == Step(Walk(lengths[..k], maxDaysDifference), lengths[k], maxDaysDifference)
  {
    assert lengths[..k + 1][..k] == lengths[..k];
  }

  function Abs(x: int): nat {
    if x < 0 then -x else x
  }

  /** Reference definition: the number of adjacent pairs of `lengths` whose
      difference is at least `maxDaysDifference` days. */
  function PairChanges(lengths: seq<int>, maxDaysDifference: int): nat {
    if |lengths| < 2 then 0
    else
      var n := |lengths|;
      PairChanges(lengths[..n - 1], maxDaysDifference)
      + if Abs(lengths[n - 2] - lengths[n - 1]) >= maxDaysDifference then 1 else 0
  }

  /** Lengths small enough that neither the subtraction nor Math.abs
      overflows, and none equal to the Integer.MIN_VALUE sentinel. */
  predicate SmallLengths(lengths: seq<int>) {
    forall i :: 0 <= i < |lengths| ==> -0x4000_0000 < lengths[i] < 0x4000_0000
  }

  /** Away from the int limits, the loop counts exactly the adjacent pairs
      whose lengths differ by at least `maxDaysDifference`. */
  lemma {:induction false} WalkCountsPairs(lengths: seq<int>, maxDaysDifference: int)
    requires SmallLengths(lengths)
    ensures AllInt32(lengths)
    ensures Walk(lengths, maxDaysDifference).changes == PairChanges(lengths, maxDaysDifference)
  {
    if lengths != [] {
      var n := |lengths|;
      var init := lengths[..n - 1];
      assert SmallLengths(init) by {
        forall i | 0 <= i < |init| ensures -0x4000_0000 < init[i] < 0x4000_0000 { assert init[i] == lengths[i]; }
      }
      WalkCountsPairs(init, maxDaysDifference);
      if init != [] {
        var previous := Walk(init, maxDaysDifference).previous;
        assert previous == lengths[n - 2];
        assert IsInt32(previous - lengths[n - 1]);
        assert IsChange(previous, lengths[n - 1], maxDaysDifference)
           <==> Abs(lengths[n - 2] - lengths[n - 1]) >= maxDaysDifference;
      }
    }
  }

  /** The sentinel quirk: a length equal to Integer.MIN_VALUE is taken for
      "no previous length", so the row after it only re-seeds and its pair
      is not compared. */
  lemma MinValueLengthReseeds()
    ensures Walk([14, IntMin, 30], 7).changes == 1
    ensures PairChanges([14, IntMin, 30], 7) == 2
  {
    assert [14, IntMin][..1] == [14];
    assert [14, IntMin, 30][..2] == [14, IntMin];
    assert Walk([14, IntMin], 7) == WalkState(IntMin, 1);
    assert PairChanges([14, IntMin], 7) == 1;
  }

  /** The sentinel quirk in general: whenever a length equals
      Integer.MIN_VALUE, reading the next length only re-seeds, so that pair
      never counts as a change, however far apart the two lengths are. */
  lemma MinValueSkipsNextPair(lengths: seq<int>, k: int, maxDaysDifference: int)
    requires AllInt32(lengths) && 0 <= k && k + 1 < |lengths| && lengths[k] == IntMin
    ensures AllInt32(lengths[..k + 1]) && AllInt32(lengths[..k + 2])
    ensures Walk(lengths[..k + 2], maxDaysDifference).changes == Walk(lengths[..k + 1], maxDaysDifference).changes
    ensures Walk(lengths[..k + 2], maxDaysDifference).previous == lengths[k + 1]
  {
    WalkPrefix(lengths, k + 1, maxDaysDifference);
    assert lengths[..k + 1][k] == IntMin;
  }

  class VaryingSprintLengthDetector {
    const antiPattern: AntiPattern
    var maxDaysDifference: int
    var maxIterationChanged: int

    constructor ()
      ensures antiPattern == AntiPattern(2, "Varying Sprint Length", "VaryingSprintLength")
      ensures maxDaysDifference == 7 && maxIterationChanged == 1
    {
      antiPattern := AntiPattern(2, "Varying Sprint Length", "VaryingSprintLength");
      maxDaysDifference := 7;
      maxIterationChanged := 1;
    }

    /** Reads the cursor to its end. A read failure yields a detection with
        the failure text as its only detail; otherwise four details report
        the limit, the number of rows, the number of changes and the
        conclusion. */
    method Analyze(rs: Option<Cursor>) returns (item: QueryResultItem)
      requires rs.Some? ==> Int32Rows(rs.value)
      ensures item.antiPattern == antiPattern
      ensures ReadFails(rs) ==>
                item.detected && item.details == [ResultDetail(ReadProblem, rs.value.failure.value)]
      ensures !ReadFails(rs) ==>
                var lengths := CursorLengths(rs);
                var changes := Walk(lengths, maxDaysDifference).changes;
                && (item.detected <==> changes > maxIterationChanged)
                && item.details == [
                     ResultDetail("Maximum iteration length change", IntToString(maxIterationChanged)),
                     ResultDetail("Count of iterations", IntToString(|lengths|)),
                     ResultDetail("Iteration length changed", IntToString(changes)),
                     ResultDetail("Conclusion", if item.detected then ChangedTooOftenConclusion else AllRightConclusion)]
      ensures !ReadFails(rs) && SmallLengths(CursorLengths(rs)) ==>
                (item.detected <==> PairChanges(CursorLengths(rs), maxDaysDifference) > maxIterationChanged)
    {
      var resultDetails: seq<ResultDetail> := [];
      var iterationLengthChanged: nat := 0;
      var numberOfIterations := 0;
      ghost var lengths := CursorLengths(rs);

      if rs.Some? {
        var c := rs.value;
        var firstIterationLength := IntMin;
        for k := 0 to |c.rows|
          invariant numberOfIterations == k
          invariant WalkState(firstIterationLength, iterationLengthChanged) == Walk(lengths[..k], maxDaysDifference)
        {
          WalkPrefix(lengths, k, maxDaysDifference);
          var iterationLength := GetInt(c.rows[k]);
          numberOfIterations := numberOfIterations + 1;
          if firstIterationLength == IntMin {
            firstIterationLength := iterationLength;
            continue;
          }
          var secondIterationLength := iterationLength;
          if IsChange(firstIterationLength, secondIterationLength, maxDaysDifference) {
            iterationLengthChanged := iterationLengthChanged + 1;
          }
          firstIterationLength := secondIterationLength;
        }
        assert lengths[..|c.rows|] == lengths;
        if c.failure.Some? {
          resultDetails := resultDetails + [ResultDetail(ReadProblem, c.failure.value)];
          item := QueryResultItem(antiPattern, true, resultDetails);
          return;
        }
      }

      assert numberOfIterations == |lengths|;
      assert iterationLengthChanged == Walk(lengths, maxDaysDifference).changes;
      if SmallLengths(lengths) {
        WalkCountsPairs(lengths, maxDaysDifference);
      }

      resultDetails := resultDetails + [
        ResultDetail("Maximum iteration length change", IntToString(maxIterationChanged)),
        ResultDetail("Count of iterations", IntToString(numberOfIterations)),
        ResultDetail("Iteration length changed", IntToString(iterationLengthChanged))];
      if iterationLengthChanged > maxIterationChanged {
        resultDetails := resultDetails + [ResultDetail("Conclusion", ChangedTooOftenConclusion)];
      } else {
        resultDetails := resultDetails + [ResultDetail("Conclusion", AllRightConclusion)];
      }
      item := QueryResultItem(antiPattern, iterationLengthChanged > maxIterationChanged, resultDetails);
    }
  }
}
