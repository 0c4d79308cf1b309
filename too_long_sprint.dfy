/**
 Too Long Sprint: counts the iterations (first and last already removed by
 the query) whose length in days exceeds `maxIterationLength`; the
 anti-pattern is present when more than `maxNumberOfTooLongIterations` of
 them are too long.
 */
module TooLongSprint {
  import opened Common

  const LengthKey := "iterationLength"

  const TooLongConclusion := "One or more iteration is too long"
  const InLimitConclusion := "All iterations in limit"

  /** The `(Long)` cast accepts the field: it is a Long, null or missing. */
  predicate LengthTyped(row: Row) {
    Field(row, LengthKey).Null? || Field(row, LengthKey).Long?
  }

  predicate WellTyped(rs: ResultSet) {
    forall i :: 0 <= i < |rs| ==> LengthTyped(rs[i])
  }

  /** The iteration length a row carries, as `Long.intValue()` gives it (the
      low 32 bits, see Wrap32); None when the field is missing or null. */
  function IterationLength(row: Row): (l: Option<int>)
    requires LengthTyped(row)
    ensures l.None? <==> Field(row, LengthKey).Null?
    ensures l.Some? ==> Field(row, LengthKey).Long? && l.value == Wrap32(Field(row, LengthKey).n)
  {
    match Field(row, LengthKey)
    case Long(n) => Some(Wrap32(n))
    case _ => None
  }

  /** The row has a length, and that length exceeds the limit. */
  predicate IsTooLong(row: Row, maxIterationLength: int)
    requires LengthTyped(row)
  {
    var l := IterationLength(row);
    l.Some? && l.value > maxIterationLength
  }

  /** The number of rows of `rs` whose length is present and strictly above
      `maxIterationLength`; never more than the number of rows. */
  function TooLongCount(rs: ResultSet, maxIterationLength: int): (c: nat)
    requires WellTyped(rs)
    ensures c <= |rs|
  {
    if rs == [] then 0
    else
      TooLongCount(rs[..|rs| - 1], maxIterationLength)
      + (if IsTooLong(rs[|rs| - 1], maxIterationLength) then 1 else 0)
  }

  /** The rows counted as too long, by position. */
  ghost function TooLongRows(rs: ResultSet, maxIterationLength: int): set<int>
    requires WellTyped(rs)
  {
    set i | 0 <= i < |rs| && IsTooLong(rs[i], maxIterationLength)
  }

  /** Growing the rows by one adds at most the new position to the set. */
  lemma TooLongRowsStep(rs: ResultSet, maxIterationLength: int)
    requires WellTyped(rs) && rs != []
    ensures var n := |rs| - 1;
            TooLongRows(rs, maxIterationLength)
            == TooLongRows(rs[..n], maxIterationLength)
               + (if IsTooLong(rs[n], maxIterationLength) then {n} else {})
  {
  }

  /** The count is the number of positions holding a too-long iteration:
      rows without a length never contribute. */
  lemma {:induction false} TooLongCountIsCardinality(rs: ResultSet, maxIterationLength: int)
    requires WellTyped(rs)
    ensures TooLongCount(rs, maxIterationLength) == |TooLongRows(rs, maxIterationLength)|
  {
    if rs != [] {
      var n := |rs| - 1;
      TooLongCountIsCardinality(rs[..n], maxIterationLength);
      TooLongRowsStep(rs, maxIterationLength);
      assert n !in TooLongRows(rs[..n], maxIterationLength);
    }
  }


  lemma {:induction false} TooLongCountAppend(a: ResultSet, b: ResultSet, maxIterationLength: int)
    requires WellTyped(a) && WellTyped(b)
    ensures WellTyped(a + b)
    ensures TooLongCount(a + b, maxIterationLength)
         == TooLongCount(a, maxIterationLength) + TooLongCount(b, maxIterationLength)
  {
    assert WellTyped(a + b) by {
      forall i | 0 <= i < |a + b| ensures LengthTyped((a + b)[i]) {
        if i < |a| { assert (a + b)[i] == a[i]; } else { assert (a + b)[i] == b[i - |a|]; }
      }
    }
    if b != [] {
      var n := |b| - 1;
      assert (a + b)[..|a + b| - 1] == a + b[..n];
      TooLongCountAppend(a, b[..n], maxIterationLength);
    } else {
      assert a + b == a;
    }
  }

  /** Two permutations of each other stay so once the last element of the
      first and an equal element of the second are removed. */
  lemma MultisetRemoveLast<T>(a: seq<T>, b: seq<T>, i: int)
    requires multiset(a) == multiset(b)
    requires a != [] && 0 <= i < |b| && b[i] == a[|a| - 1]
    ensures multiset(a[..|a| - 1]) == multiset(b[..i] + b[i + 1..])
  {
    var x := a[|a| - 1];
    assert a == a[..|a| - 1] + [x];
    assert b == b[..i] + [x] + b[i + 1..];
    var l, r := multiset(a[..|a| - 1]), multiset(b[..i] + b[i + 1..]);
    assert r == multiset(b[..i]) + multiset(b[i + 1..]);
    assert l + multiset{x} == r + multiset{x};
    forall y ensures l[y] == r[y] {
      assert (l + multiset{x})[y] == (r + multiset{x})[y];
    }
  }

  /** Taking one row out of a result set removes exactly that row's contribution. */
  lemma TooLongCountRemove(b: ResultSet, i: int, maxIterationLength: int)
    requires WellTyped(b) && 0 <= i < |b|
    ensures WellTyped(b[..i] + b[i + 1..])
    ensures TooLongCount(b, maxIterationLength)
         == TooLongCount(b[..i] + b[i + 1..], maxIterationLength)
            + (if IsTooLong(b[i], maxIterationLength) then 1 else 0)
  {
    var pre, x, post := b[..i], [b[i]], b[i + 1..];
    assert WellTyped(pre) && WellTyped(post) && WellTyped(x) by {
      forall k | 0 <= k < |pre| ensures LengthTyped(pre[k]) { assert pre[k] == b[k]; }
      forall k | 0 <= k < |post| ensures LengthTyped(post[k]) { assert post[k] == b[i + 1 + k]; }
    }
    assert b == (pre + x) + post;
    TooLongCountAppend(pre, x, maxIterationLength);
    TooLongCountAppend(pre + x, post, maxIterationLength);
    TooLongCountAppend(pre, post, maxIterationLength);
    assert x[..0] == [];
  }

  /** The order of the rows does not affect the count, hence not the verdict. */
  lemma {:induction false} TooLongCountPermutation(a: ResultSet, b: ResultSet, maxIterationLength: int)
    requires WellTyped(a) && WellTyped(b)
    requires multiset(a) == multiset(b)
    ensures TooLongCount(a, maxIterationLength) == TooLongCount(b, maxIterationLength)
  {
    if a == [] {
      assert |b| == |multiset(b)| == 0;
    } else {
      var n := |a| - 1;
      var x := a[n];
      assert x in multiset(b) by { assert x in multiset(a); }
      var i :| 0 <= i < |b| && b[i] == x;
      var rest := b[..i] + b[i + 1..];
      MultisetRemoveLast(a, b, i);
      TooLongCountRemove(b, i, maxIterationLength);
      TooLongCountPermutation(a[..n], rest, maxIterationLength);
    }
  }

  /** The count in terms of the raw field: the rows whose `iterationLength`
      is a Long greater than the limit. */
  lemma TooLongCountOfLongFields(rs: ResultSet, maxIterationLength: int)
    requires WellTyped(rs)
    ensures TooLongCount(rs, maxIterationLength)
         == |set i | 0 <= i < |rs| && Field(rs[i], LengthKey).Long? && Wrap32(Field(rs[i], LengthKey).n) > maxIterationLength|
  {
    TooLongCountIsCardinality(rs, maxIterationLength);
    assert TooLongRows(rs, maxIterationLength)
        == set i | 0 <= i < |rs| && Field(rs[i], LengthKey).Long? && Wrap32(Field(rs[i], LengthKey).n) > maxIterationLength;
  }

  class TooLongSprintDetector {
    const antiPattern: AntiPattern
    var maxIterationLength: int
    var maxNumberOfTooLongIterations: int

    constructor ()
      ensures antiPattern == AntiPattern(1, "Too Long Sprint", "TooLongSprint")
      ensures maxIterationLength == 21 && maxNumberOfTooLongIterations == 0
    {
      antiPattern := AntiPattern(1, "Too Long Sprint", "TooLongSprint");
      maxIterationLength := 21;
      maxNumberOfTooLongIterations := 0;
    }

    /** Only the first result set is consulted. Every row counts toward the
        number of iterations; rows without a length are skipped for the
        too-long count. */
    method Analyze(resultSets: seq<ResultSet>) returns (item: QueryResultItem)
      requires |resultSets| > 0 && WellTyped(resultSets[0])
      ensures item.antiPattern == antiPattern
      ensures item.detected
          <==> TooLongCount(resultSets[0], maxIterationLength) > maxNumberOfTooLongIterations
      ensures item.details == [
                ResultDetail("Count of iterations without first and last", IntToString(|resultSets[0]|)),
                ResultDetail("Number of too long iterations",
                             IntToString(TooLongCount(resultSets[0], maxIterationLength))),
                ResultDetail("Conclusion", if item.detected then TooLongConclusion else InLimitConclusion)]
    {
      var maxIterationLength := this.maxIterationLength;
      var maxNumberOfTooLongIterations := this.maxNumberOfTooLongIterations;

      var numberOfLongIterations := 0;
      var totalCountOfIteration := 0;

      var rs := resultSets[0];
      for k := 0 to |rs|
        invariant totalCountOfIteration == k
        invariant numberOfLongIterations == TooLongCount(rs[..k], maxIterationLength)
      {
        assert rs[..k + 1][..k] == rs[..k];
        totalCountOfIteration := totalCountOfIteration + 1;
        var length := IterationLength(rs[k]);
        if length.None? {
          continue;
        }
        if length.value > maxIterationLength {
          numberOfLongIterations := numberOfLongIterations + 1;
        }
      }
      assert rs[..|rs|] == rs;

      var details := [
        ResultDetail("Count of iterations without first and last", IntToString(totalCountOfIteration)),
        ResultDetail("Number of too long iterations", IntToString(numberOfLongIterations))];
      if numberOfLongIterations > maxNumberOfTooLongIterations {
        details := details + [ResultDetail("Conclusion", TooLongConclusion)];
      } else {
        details := details + [ResultDetail("Conclusion", InLimitConclusion)];
      }
      item := QueryResultItem(antiPattern, numberOfLongIterations > maxNumberOfTooLongIterations, details);
    }
  }
}
