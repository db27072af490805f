/** Selection of records by mode and threshold (core/filters.py). */
module Filters {
  import opened Wrappers
  import opened Sequences
  import opened Records
  import opened Settings

  /** Whether a record is kept: in mode "ALL" when its value is a number,
      in any other mode when it passes the OK-mode test at `threshold`. */
  predicate ShouldInclude(r: Record, threshold: real, mode: string) {
    if mode == "ALL" then r.NumericValue().Some? else r.IsValid(threshold)
  }

  /** The records kept, in their original order. */
  function Selected(rs: seq<Record>, threshold: real, mode: string): (kept: seq<Record>)
    ensures |kept| <= |rs|
    ensures forall r :: r in kept ==> r in rs && ShouldInclude(r, threshold, mode)
  {
    if rs == [] then []
    else
      var n := |rs| - 1;
      Selected(rs[..n], threshold, mode) + (if ShouldInclude(rs[n], threshold, mode) then [rs[n]] else [])
  }

  /** The threshold `filter_records` uses: the argument, or the configured default when none is given. */
  function EffectiveThreshold(threshold: Option<real>, config: Config): real {
    threshold.GetOr(config.defaultThreshold)
  }

  method FilterRecords(records: seq<Record>, threshold: Option<real>, config: Config)
    returns (filtered: seq<Record>)
    ensures filtered == Selected(records, EffectiveThreshold(threshold, config), config.filterMode)
    ensures IsSubsequence(filtered, records)
    ensures forall r :: r in filtered <==>
              r in records && ShouldInclude(r, EffectiveThreshold(threshold, config), config.filterMode)
  {
    var t := if threshold.None? then config.defaultThreshold else threshold.value;
    filtered := [];
    var i := 0;
    while i < |records|
      invariant 0 <= i <= |records|
      invariant filtered == Selected(records[..i], t, config.filterMode)
    {
      assert records[..i + 1][..i] == records[..i];
      if ShouldInclude(records[i], t, config.filterMode) {
        filtered := filtered + [records[i]];
      }
      i := i + 1;
    }
    assert records[..i] == records;
    SelectedIsSubsequence(records, t, config.filterMode);
    SelectedMembership(records, t, config.filterMode);
  }

  // ---------------------------------------------------------------------------
  // Properties of the selection

  /** The mask of `ShouldInclude` answers, position by position. */
  function InclusionMask(rs: seq<Record>, threshold: real, mode: string): (mask: seq<bool>)
    ensures |mask| == |rs|
  {
    if rs == [] then []
    else
      var n := |rs| - 1;
      InclusionMask(rs[..n], threshold, mode) + [ShouldInclude(rs[n], threshold, mode)]
  }

  lemma {:induction false} SelectedIsMasked(rs: seq<Record>, threshold: real, mode: string)
    ensures Masked(rs, InclusionMask(rs, threshold, mode)) == Selected(rs, threshold, mode)
  {
    if rs != [] {
      var n := |rs| - 1;
      var mask := InclusionMask(rs, threshold, mode);
      assert mask[..n] == InclusionMask(rs[..n], threshold, mode);
      SelectedIsMasked(rs[..n], threshold, mode);
    }
  }

  /** The result is the input with some records deleted, the rest in their original order. */
  lemma SelectedIsSubsequence(rs: seq<Record>, threshold: real, mode: string)
    ensures IsSubsequence(Selected(rs, threshold, mode), rs)
  {
    SelectedIsMasked(rs, threshold, mode);
  }

  /** A record is in the result exactly when it is in the input and passes `ShouldInclude`. */
  lemma {:induction false} SelectedMembership(rs: seq<Record>, threshold: real, mode: string)
    ensures forall r :: r in Selected(rs, threshold, mode) <==> r in rs && ShouldInclude(r, threshold, mode)
  {
    if rs != [] {
      var n := |rs| - 1;
      SelectedMembership(rs[..n], threshold, mode);
      assert rs == rs[..n] + [rs[n]];
    }
  }

  /** Selecting with a stricter test from an already selected list is the same as
      selecting with the stricter test from the start. */
  lemma {:induction false} SelectedNarrowing(rs: seq<Record>, t1: real, m1: string, t2: real, m2: string)
    requires forall r :: ShouldInclude(r, t2, m2) ==> ShouldInclude(r, t1, m1)
    ensures Selected(Selected(rs, t1, m1), t2, m2) == Selected(rs, t2, m2)
  {
    if rs != [] {
      var n := |rs| - 1;
      var x := rs[n];
      var prefix := Selected(rs[..n], t1, m1);
      SelectedNarrowing(rs[..n], t1, m1, t2, m2);
      assert Selected(prefix, t2, m2) == Selected(rs[..n], t2, m2);
      if ShouldInclude(x, t1, m1) {
        assert Selected(rs, t1, m1) == prefix + [x];
        SelectedAppend(prefix, x, t2, m2);
      } else {
        assert !ShouldInclude(x, t2, m2);
        assert Selected(rs, t1, m1) == prefix;
      }
    }
  }

  lemma SelectedAppend(rs: seq<Record>, r: Record, threshold: real, mode: string)
    ensures Selected(rs + [r], threshold, mode)
         == Selected(rs, threshold, mode) + (if ShouldInclude(r, threshold, mode) then [r] else [])
  {
    assert (rs + [r])[..|rs|] == rs;
  }

  /** Filtering an already filtered list with the same threshold and mode changes nothing. */
  lemma FilterIdempotent(rs: seq<Record>, threshold: real, mode: string)
    ensures Selected(Selected(rs, threshold, mode), threshold, mode) == Selected(rs, threshold, mode)
  {
    SelectedNarrowing(rs, threshold, mode, threshold, mode);
  }

  /** In OK mode a higher threshold keeps a subsequence of what a lower one keeps. */
  lemma RaisingThresholdNarrows(rs: seq<Record>, lower: real, higher: real, mode: string)
    requires mode != "ALL" && lower <= higher
    ensures Selected(Selected(rs, lower, mode), higher, mode) == Selected(rs, higher, mode)
    ensures IsSubsequence(Selected(rs, higher, mode), Selected(rs, lower, mode))
  {
    forall r | ShouldInclude(r, higher, mode) ensures ShouldInclude(r, lower, mode) {
      IsValidMonotone(r, higher, lower);
    }
    SelectedNarrowing(rs, lower, mode, higher, mode);
    SelectedIsSubsequence(Selected(rs, lower, mode), higher, mode);
  }

  /** In ALL mode the threshold plays no part. */
  lemma {:induction false} AllModeIgnoresThreshold(rs: seq<Record>, t1: real, t2: real)
    ensures Selected(rs, t1, "ALL") == Selected(rs, t2, "ALL")
  {
    if rs != [] {
      AllModeIgnoresThreshold(rs[..|rs| - 1], t1, t2);
    }
  }

  /** What OK mode keeps is a subsequence of what ALL mode keeps. */
  lemma OkModeWithinAllMode(rs: seq<Record>, threshold: real, mode: string)
    requires mode != "ALL"
    ensures Selected(Selected(rs, threshold, "ALL"), threshold, mode) == Selected(rs, threshold, mode)
    ensures IsSubsequence(Selected(rs, threshold, mode), Selected(rs, threshold, "ALL"))
  {
    SelectedNarrowing(rs, threshold, "ALL", threshold, mode);
    SelectedIsSubsequence(Selected(rs, threshold, "ALL"), threshold, mode);
  }

  /** Every record kept has a value that reads as a number. */
  lemma SelectedAreNumeric(rs: seq<Record>, threshold: real, mode: string)
    ensures forall r :: r in Selected(rs, threshold, mode) ==> r.NumericValue().Some?
  {
  }

  lemma FilterAboveThresholdExample()
    ensures Selected([Record("ok", Num(10.0)), Record("ok", Num(5.0)), Record("bad", Num(15.0)),
                      Record("ok", Num(20.0))], 8.0, "OK")
         == [Record("ok", Num(10.0)), Record("ok", Num(20.0))]
  {
    var rs := [Record("ok", Num(10.0)), Record("ok", Num(5.0)), Record("bad", Num(15.0)), Record("ok", Num(20.0))];
    assert rs[..3] == [Record("ok", Num(10.0)), Record("ok", Num(5.0)), Record("bad", Num(15.0))];
    assert rs[..3][..2] == [Record("ok", Num(10.0)), Record("ok", Num(5.0))];
    assert rs[..3][..2][..1] == [Record("ok", Num(10.0))];
    assert Selected(rs[..3][..2][..1], 8.0, "OK") == [Record("ok", Num(10.0))];
    assert Selected(rs[..3][..2], 8.0, "OK") == [Record("ok", Num(10.0))];
    assert Lower("bad") != "ok";
    assert Selected(rs[..3], 8.0, "OK") == [Record("ok", Num(10.0))];
  }

  lemma FilterAllModeExample()
    ensures Selected([Record("ok", Num(10.0)), Record("bad", Num(15.0)), Record("error", Num(20.0)),
                      Record("ok", Null)], 5.0, "ALL")
         == [Record("ok", Num(10.0)), Record("bad", Num(15.0)), Record("error", Num(20.0))]
  {
    var rs := [Record("ok", Num(10.0)), Record("bad", Num(15.0)), Record("error", Num(20.0)), Record("ok", Null)];
    assert rs[..3] == [Record("ok", Num(10.0)), Record("bad", Num(15.0)), Record("error", Num(20.0))];
    assert rs[..3][..2] == [Record("ok", Num(10.0)), Record("bad", Num(15.0))];
    assert rs[..3][..2][..1] == [Record("ok", Num(10.0))];
    assert Selected(rs[..3][..2][..1], 5.0, "ALL") == [Record("ok", Num(10.0))];
    assert Selected(rs[..3][..2], 5.0, "ALL") == [Record("ok", Num(10.0)), Record("bad", Num(15.0))];
    assert Selected(rs[..3], 5.0, "ALL") == rs[..3];
  }
}
