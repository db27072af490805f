/** Count, total and average of the numeric values (core/calculator.py). */
module Calculator {
  import opened Wrappers
  import opened Records
  import opened Filters

  const Zero: AnalysisResult := AnalysisResult(0, 0.0, 0.0)

  /** The values that read as numbers, in order; the others are skipped. */
  function Values(rs: seq<Record>): (vs: seq<real>)
    ensures |vs| <= |rs|
  {
    if rs == [] then []
    else
      var n := |rs| - 1;
      Values(rs[..n]) + (match rs[n].NumericValue() case Some(v) => [v] case None => [])
  }

  function Sum(xs: seq<real>): real {
    if xs == [] then 0.0 else Sum(xs[..|xs| - 1]) + xs[|xs| - 1]
  }

  /** The statistics of a record list: zero when no value reads as a number,
      otherwise how many do, their sum and their mean. */
  function Statistics(rs: seq<Record>): AnalysisResult {
    var vs := Values(rs);
    if |vs| == 0 then Zero
    else AnalysisResult(|vs|, Sum(vs), Sum(vs) / |vs| as real)
  }

  method CalculateStatistics(records: seq<Record>) returns (result: AnalysisResult)
    ensures result == Statistics(records)
    ensures result.count == |Values(records)| <= |records|
    ensures result.total == Sum(Values(records))
    ensures result.count == 0 ==> result == Zero
  {
    if |records| == 0 {
      return Zero;
    }
    var validValues: seq<real> := [];
    var i := 0;
    while i < |records|
      invariant 0 <= i <= |records|
      invariant validValues == Values(records[..i])
    {
      assert records[..i + 1][..i] == records[..i];
      var numericValue := records[i].NumericValue();
      if numericValue.Some? {
        validValues := validValues + [numericValue.value];
      }
      i := i + 1;
    }
    assert records[..i] == records;
    if |validValues| == 0 {
      return Zero;
    }
    var total := Sum(validValues);
    var average := total / |validValues| as real;
    result := AnalysisResult(|validValues|, total, average);
  }

  /** The average is the total shared out over the count. */
  lemma AverageTimesCount(rs: seq<Record>)
    ensures Statistics(rs).count > 0 ==> Statistics(rs).average * Statistics(rs).count as real == Statistics(rs).total
  {
    var vs := Values(rs);
    if |vs| > 0 {
      var n := |vs| as real;
      assert Sum(vs) / n * n == Sum(vs);
    }
  }

  // ---------------------------------------------------------------------------
  // Properties of the statistics

  /** An empty list and a list in which no value reads as a number both give the zero result. */
  lemma {:induction false} NoNumbersGivesZero(rs: seq<Record>)
    requires forall r :: r in rs ==> r.NumericValue().None?
    ensures Values(rs) == []
    ensures Statistics(rs) == Zero
  {
    if rs != [] {
      NoNumbersGivesZero(rs[..|rs| - 1]);
    }
  }

  /** The count is the number of records that ALL mode keeps, that is, whose value reads as a number. */
  lemma {:induction false} CountIsNumericRecords(rs: seq<Record>, threshold: real)
    ensures |Values(rs)| == |Selected(rs, threshold, "ALL")|
  {
    if rs != [] {
      CountIsNumericRecords(rs[..|rs| - 1], threshold);
    }
  }

  /** After filtering, in either mode, every record counts: the count is the length of the filtered list. */
  lemma CountOfSelected(rs: seq<Record>, threshold: real, mode: string)
    ensures Statistics(Selected(rs, threshold, mode)).count == |Selected(rs, threshold, mode)|
  {
    var kept := Selected(rs, threshold, mode);
    forall i | 0 <= i < |kept| ensures kept[i].NumericValue().Some? {
      assert kept[i] in kept;
    }
    FilterIdempotentForAll(kept, threshold);
    CountIsNumericRecords(kept, threshold);
  }

  lemma {:induction false} FilterIdempotentForAll(rs: seq<Record>, threshold: real)
    requires forall i :: 0 <= i < |rs| ==> rs[i].NumericValue().Some?
    ensures Selected(rs, threshold, "ALL") == rs
  {
    if rs != [] {
      var n := |rs| - 1;
      assert ShouldInclude(rs[n], threshold, "ALL");
      FilterIdempotentForAll(rs[..n], threshold);
      assert rs[..n] + [rs[n]] == rs;
    }
  }

  lemma {:induction false} ValuesAppend(rs: seq<Record>, ss: seq<Record>)
    ensures Values(rs + ss) == Values(rs) + Values(ss)
  {
    if ss != [] {
      var n := |ss| - 1;
      assert (rs + ss)[..|rs| + n] == rs + ss[..n];
      assert (rs + ss)[|rs| + n] == ss[n];
      ValuesAppend(rs, ss[..n]);
    } else {
      assert rs + ss == rs;
    }
  }

  lemma {:induction false} SumAppend(xs: seq<real>, ys: seq<real>)
    ensures Sum(xs + ys) == Sum(xs) + Sum(ys)
  {
    if ys != [] {
      var n := |ys| - 1;
      assert (xs + ys)[..|xs| + n] == xs + ys[..n];
      assert (xs + ys)[|xs| + n] == ys[n];
      SumAppend(xs, ys[..n]);
    } else {
      assert xs + ys == xs;
    }
  }

  /** The statistics of two lists put together: counts and totals add up. */
  lemma StatisticsOfConcatenation(rs: seq<Record>, ss: seq<Record>)
    ensures Statistics(rs + ss).count == Statistics(rs).count + Statistics(ss).count
    ensures Statistics(rs + ss).total == Statistics(rs).total + Statistics(ss).total
  {
    ValuesAppend(rs, ss);
    SumAppend(Values(rs), Values(ss));
  }

  lemma {:induction false} SumAtLeast(xs: seq<real>, bound: real)
    requires forall i :: 0 <= i < |xs| ==> xs[i] >= bound
    ensures Sum(xs) >= |xs| as real * bound
  {
    if xs != [] {
      SumAtLeast(xs[..|xs| - 1], bound);
    }
  }

  /** When every record's number is at least `bound`, so is every collected value. */
  lemma {:induction false} ValuesAtLeast(rs: seq<Record>, bound: real)
    requires forall r :: r in rs && r.NumericValue().Some? ==> r.NumericValue().value >= bound
    ensures forall v :: v in Values(rs) ==> v >= bound
  {
    if rs != [] {
      var n := |rs| - 1;
      assert forall r :: r in rs[..n] ==> r in rs;
      ValuesAtLeast(rs[..n], bound);
      assert rs[n] in rs;
    }
  }

  lemma SelectedValuesAtLeast(rs: seq<Record>, threshold: real, mode: string)
    requires mode != "ALL"
    ensures forall i :: 0 <= i < |Values(Selected(rs, threshold, mode))| ==>
              Values(Selected(rs, threshold, mode))[i] >= threshold
  {
    var kept := Selected(rs, threshold, mode);
    forall r | r in kept && r.NumericValue().Some?
      ensures r.NumericValue().value >= threshold
    {
      assert ShouldInclude(r, threshold, mode);
    }
    ValuesAtLeast(kept, threshold);
    var vs := Values(kept);
    forall i | 0 <= i < |vs| ensures vs[i] >= threshold {
      assert vs[i] in vs;
    }
  }

  /** In OK mode every counted value is at least the threshold, and so is their average. */
  lemma OkModeAverageAtLeastThreshold(rs: seq<Record>, threshold: real, mode: string)
    requires mode != "ALL"
    ensures Statistics(Selected(rs, threshold, mode)).count > 0 ==>
              Statistics(Selected(rs, threshold, mode)).average >= threshold
  {
    var vs := Values(Selected(rs, threshold, mode));
    SelectedValuesAtLeast(rs, threshold, mode);
    SumAtLeast(vs, threshold);
    if |vs| > 0 {
      MeanAtLeast(Sum(vs), |vs| as real, threshold);
    }
  }

  /** A total of at least `n` times `bound`, shared out over `n`, gives at least `bound`. */
  lemma MeanAtLeast(total: real, n: real, bound: real)
    requires n > 0.0 && total >= n * bound
    ensures total / n >= bound
  {
    var q := total / n;
    assert q * n == total;
    if q < bound {
      assert (bound - q) * n > 0.0;
    }
  }

  lemma StatisticsExamples()
    ensures Statistics([]) == Zero
    ensures Statistics([Record("ok", Num(10.0)), Record("ok", Num(20.0)), Record("ok", Num(30.0))])
         == AnalysisResult(3, 60.0, 20.0)
    ensures Statistics([Record("ok", Num(1.5)), Record("ok", Num(2.5)), Record("ok", Num(3.0))])
         == AnalysisResult(3, 7.0, 7.0 / 3.0)
  {
    var a := [Record("ok", Num(10.0)), Record("ok", Num(20.0)), Record("ok", Num(30.0))];
    assert a[..2] == [Record("ok", Num(10.0)), Record("ok", Num(20.0))];
    assert a[..2][..1] == [Record("ok", Num(10.0))];
    assert Values(a) == [10.0, 20.0, 30.0];
    assert [10.0, 20.0, 30.0][..2] == [10.0, 20.0];
    assert [10.0, 20.0][..1] == [10.0];
    var b := [Record("ok", Num(1.5)), Record("ok", Num(2.5)), Record("ok", Num(3.0))];
    assert b[..2] == [Record("ok", Num(1.5)), Record("ok", Num(2.5))];
    assert b[..2][..1] == [Record("ok", Num(1.5))];
    assert Values(b) == [1.5, 2.5, 3.0];
    assert [1.5, 2.5, 3.0][..2] == [1.5, 2.5];
    assert [1.5, 2.5][..1] == [1.5];
  }

  lemma MixedRecordsValues(a: seq<Record>)
    requires a == [Record("ok", Num(10.0)), Record("ok", Str("invalid")), Record("ok", Num(20.0)), Record("ok", Null)]
    ensures Values(a) == [10.0, 20.0]
  {
    ParseInvalid();
    assert a[..3][..2][..1] == [Record("ok", Num(10.0))];
    assert Values(a[..3][..2][..1]) == [10.0];
    assert a[..3][..2][1].NumericValue() == None;
    assert Values(a[..3][..2]) == [10.0];
    assert Values(a[..3]) == [10.0, 20.0];
  }

  /** Mixed input: a string that is not a number and a null are skipped. */
  lemma MixedRecordsExample()
    ensures Statistics([Record("ok", Num(10.0)), Record("ok", Str("invalid")), Record("ok", Num(20.0)),
                        Record("ok", Null)]) == AnalysisResult(2, 30.0, 15.0)
  {
    var a := [Record("ok", Num(10.0)), Record("ok", Str("invalid")), Record("ok", Num(20.0)), Record("ok", Null)];
    MixedRecordsValues(a);
    assert [10.0, 20.0][..1] == [10.0];
    assert Sum([10.0, 20.0]) == 30.0;
  }
}
